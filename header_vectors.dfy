/** The recorded behaviour of the header and flag decoders, one lemma per
    test case, and the standard-information attribute of the same record. */
module HeaderVectors {
  import opened Wrappers
  import opened Bytes
  import opened Timestamps
  import opened RecordHeaders
  import SI = StandardInformation

  /** Flag byte 0x00 is a deleted file. */
  lemma FlagsDeleted()
    ensures ParseFlags(0x00) == RecordHeaderFlags(flagDeleted := true, flagDirectory := false)
  {
  }

  /** Flag byte 0x03 is a directory. */
  lemma FlagsDirectory()
    ensures ParseFlags(0x03) == RecordHeaderFlags(flagDeleted := false, flagDirectory := true)
  {
  }

  /** Flag byte 0x06 is neither, although bit 0 is clear and bit 1 is set. */
  lemma FlagsOther()
    ensures ParseFlags(0x06) == RecordHeaderFlags(flagDeleted := false, flagDirectory := false)
    ensures BitMaskFlags(0x06) == RecordHeaderFlags(flagDeleted := true, flagDirectory := true)
  {
  }

  /** MFT record 0 of a volume, the table's own record, in three parts: the
      header up to its attribute list at 0x38, the standard-information
      attribute (0x60 bytes), and the remaining attributes and slack. */
  const Record0Header: seq<byte> :=
    [70, 73, 76, 69, 48, 0, 3, 0, 155, 21, 101, 188, 33, 0, 0, 0] +
    [1, 0, 1, 0, 56, 0, 1, 0, 200, 1, 0, 0, 0, 4, 0, 0] +
    [0, 0, 0, 0, 0, 0, 0, 0, 7, 0, 0, 0, 0, 0, 0, 0] +
    [29, 7, 0, 0, 0, 0, 0, 0]

  const Record0StdInfo: seq<byte> :=
    [16, 0, 0, 0, 96, 0, 0, 0, 0, 0, 24, 0, 0, 0, 0, 0] +
    [72, 0, 0, 0, 24, 0, 0, 0, 234, 36, 205, 74, 116, 212, 209, 1] +
    [234, 36, 205, 74, 116, 212, 209, 1, 234, 36, 205, 74, 116, 212, 209, 1] +
    [234, 36, 205, 74, 116, 212, 209, 1, 6, 0, 0, 0, 0, 0, 0, 0] +
    [0, 0, 0, 0, 0, 0, 0, 0, 0, 0, 0, 0, 0, 1, 0, 0] +
    [0, 0, 0, 0, 0, 0, 0, 0, 0, 0, 0, 0, 0, 0, 0, 0]

  const Record0Rest: seq<byte> :=
    [48, 0, 0, 0, 104, 0, 0, 0, 0, 0, 24, 0, 0, 0, 3, 0] +
    [74, 0, 0, 0, 24, 0, 1, 0, 5, 0, 0, 0, 0, 0, 5, 0] +
    [234, 36, 205, 74, 116, 212, 209, 1, 234, 36, 205, 74, 116, 212, 209, 1] +
    [234, 36, 205, 74, 116, 212, 209, 1, 234, 36, 205, 74, 116, 212, 209, 1] +
    [0, 64, 0, 0, 0, 0, 0, 0, 0, 64, 0, 0, 0, 0, 0, 0] +
    [6, 0, 0, 0, 0, 0, 0, 0, 4, 3, 36, 0, 77, 0, 70, 0] +
    [84, 0, 0, 0, 0, 0, 0, 0, 128, 0, 0, 0, 120, 0, 0, 0] +
    [1, 0, 64, 0, 0, 0, 6, 0, 0, 0, 0, 0, 0, 0, 0, 0] +
    [63, 55, 5, 0, 0, 0, 0, 0, 64, 0, 0, 0, 0, 0, 0, 0] +
    [0, 0, 116, 83, 0, 0, 0, 0, 0, 0, 116, 83, 0, 0, 0, 0] +
    [0, 0, 116, 83, 0, 0, 0, 0, 51, 32, 200, 0, 0, 0, 12, 67] +
    [109, 148, 1, 212, 133, 226, 1, 67, 54, 210, 0, 106, 250, 123, 9, 66] +
    [253, 12, 241, 48, 8, 245, 66, 69, 99, 201, 78, 228, 8, 67, 97, 209] +
    [0, 235, 81, 198, 1, 67, 218, 198, 0, 17, 228, 150, 1, 0, 0, 0] +
    [176, 0, 0, 0, 72, 0, 0, 0, 1, 0, 64, 0, 0, 0, 5, 0] +
    [0, 0, 0, 0, 0, 0, 0, 0, 42, 0, 0, 0, 0, 0, 0, 0] +
    [64, 0, 0, 0, 0, 0, 0, 0, 0, 176, 2, 0, 0, 0, 0, 0] +
    [8, 160, 2, 0, 0, 0, 0, 0, 8, 160, 2, 0, 0, 0, 0, 0] +
    [49, 43, 103, 244, 2, 0, 0, 0, 255, 255, 255, 255, 0, 0, 0, 0] +
    [255, 255, 255, 255, 0, 0, 0, 0, 255, 255, 255, 255, 0, 0, 0, 0] +
    [255, 255, 255, 255, 0, 0, 0, 0, 255, 255, 255, 255, 0, 0, 0, 0] +
    [8, 16, 0, 0, 0, 0, 0, 0, 49, 1, 255, 255, 11, 17, 1, 255] +
    [0, 0, 0, 0, 0, 0, 29, 7, 255, 255, 255, 255, 0, 0, 0, 0] +
    [0, 0, 0, 0, 0, 0, 0, 0, 0, 0, 0, 0, 0, 0, 0, 0] +
    [0, 0, 0, 0, 0, 0, 0, 0, 0, 0, 0, 0, 0, 0, 0, 0] +
    [0, 0, 0, 0, 0, 0, 0, 0, 0, 0, 0, 0, 0, 0, 0, 0] +
    [0, 0, 0, 0, 0, 0, 0, 0, 0, 0, 0, 0, 0, 0, 0, 0] +
    [0, 0, 0, 0, 0, 0, 0, 0, 0, 0, 0, 0, 0, 0, 0, 0] +
    [0, 0, 0, 0, 0, 0, 0, 0, 0, 0, 0, 0, 0, 0, 0, 0] +
    [0, 0, 0, 0, 0, 0, 0, 0, 0, 0, 0, 0, 0, 0, 0, 0] +
    [0, 0, 0, 0, 0, 0, 0, 0, 0, 0, 0, 0, 0, 0, 0, 0] +
    [0, 0, 0, 0, 0, 0, 0, 0, 0, 0, 0, 0, 0, 0, 0, 0] +
    [0, 0, 0, 0, 0, 0, 0, 0, 0, 0, 0, 0, 0, 0, 0, 0] +
    [0, 0, 0, 0, 0, 0, 0, 0, 0, 0, 0, 0, 0, 0, 0, 0] +
    [0, 0, 0, 0, 0, 0, 0, 0, 0, 0, 0, 0, 0, 0, 0, 0] +
    [0, 0, 0, 0, 0, 0, 0, 0, 0, 0, 0, 0, 0, 0, 0, 0] +
    [0, 0, 0, 0, 0, 0, 0, 0, 0, 0, 0, 0, 0, 0, 0, 0] +
    [0, 0, 0, 0, 0, 0, 0, 0, 0, 0, 0, 0, 0, 0, 0, 0] +
    [0, 0, 0, 0, 0, 0, 0, 0, 0, 0, 0, 0, 0, 0, 0, 0] +
    [0, 0, 0, 0, 0, 0, 0, 0, 0, 0, 0, 0, 0, 0, 0, 0] +
    [0, 0, 0, 0, 0, 0, 0, 0, 0, 0, 0, 0, 0, 0, 0, 0] +
    [0, 0, 0, 0, 0, 0, 0, 0, 0, 0, 0, 0, 0, 0, 0, 0] +
    [0, 0, 0, 0, 0, 0, 0, 0, 0, 0, 0, 0, 0, 0, 0, 0] +
    [0, 0, 0, 0, 0, 0, 0, 0, 0, 0, 0, 0, 0, 0, 0, 0] +
    [0, 0, 0, 0, 0, 0, 0, 0, 0, 0, 0, 0, 0, 0, 0, 0] +
    [0, 0, 0, 0, 0, 0, 0, 0, 0, 0, 0, 0, 0, 0, 0, 0] +
    [0, 0, 0, 0, 0, 0, 0, 0, 0, 0, 0, 0, 0, 0, 0, 0] +
    [0, 0, 0, 0, 0, 0, 0, 0, 0, 0, 0, 0, 0, 0, 0, 0] +
    [0, 0, 0, 0, 0, 0, 0, 0, 0, 0, 0, 0, 0, 0, 0, 0] +
    [0, 0, 0, 0, 0, 0, 0, 0, 0, 0, 0, 0, 0, 0, 0, 0] +
    [0, 0, 0, 0, 0, 0, 0, 0, 0, 0, 0, 0, 0, 0, 0, 0] +
    [0, 0, 0, 0, 0, 0, 0, 0, 0, 0, 0, 0, 0, 0, 0, 0] +
    [0, 0, 0, 0, 0, 0, 0, 0, 0, 0, 0, 0, 0, 0, 0, 0] +
    [0, 0, 0, 0, 0, 0, 0, 0, 0, 0, 0, 0, 0, 0, 0, 0] +
    [0, 0, 0, 0, 0, 0, 29, 7]

  const Record0: seq<byte> := Record0Header + Record0StdInfo + Record0Rest

  /** Where the header and the standard-information attribute lie in record 0. */
  lemma Record0Parts()
    ensures |Record0Header| == 56 && |Record0StdInfo| == 0x60
    ensures |Record0| >= 56 + 0x60
    ensures Record0[..56] == Record0Header
    ensures Record0[56..56 + 0x60] == Record0StdInfo
  {
  }

  /** Record 0 decodes to attribute offset 56, record number 0 and neither
      flag, for every admissible signature. */
  lemma Record0Decodes(sig: seq<byte>)
    requires AdmissibleSignature(sig)
    ensures ParseHeader(Record0, sig)
      == Success(RecordHeader(attributesOffset := 56, recordNumber := 0,
                              flags := RecordHeaderFlags(flagDeleted := false, flagDirectory := false)))
  {
    var head := Record0Header;
    Record0Parts();
    assert head[0] == 0x46 && head[1] == 0x49 && head[2] == 0x4C && head[3] == 0x45 && head[4] == 0x30;
    assert head[..|sig|] == sig;
    assert head[0x14] == 56 && head[0x15] == 0 && head[0x16] == 1;
    assert head[0x14..0x16] == [56, 0];
    assert head[0x2C] == 0 && head[0x2D] == 0 && head[0x2E] == 0 && head[0x2F] == 0;
    assert head[0x2C..0x30] == [0, 0, 0, 0];
    assert LittleEndian([56, 0]) == 56 by {
      assert [56, 0][1..] == [0] && [0][1..] == [];
    }
    assert LittleEndian([0, 0, 0, 0]) == 0 by {
      assert [0, 0, 0, 0][1..] == [0, 0, 0] && [0, 0, 0][1..] == [0, 0] && [0, 0][1..] == [0] && [0][1..] == [];
    }
    OnlyHeaderFieldsMatter(Record0, head, sig);
  }

  /** A nil record is refused, and a receiver that starts zero stays zero. */
  lemma NilRecord(sig: seq<byte>)
    requires AdmissibleSignature(sig)
    ensures ParseHeader([], sig).Failure?
    ensures ParseHeader([], sig).GetOr(ZeroHeader) == ZeroHeader
  {
  }

  /** A record whose first byte is not 'F' is refused on its signature,
      whatever else it holds; the test case is [0, 'I', 'L', 'E', '0']. */
  lemma WrongFirstByte(mftRecord: seq<byte>, sig: seq<byte>)
    requires AdmissibleSignature(sig)
    requires |mftRecord| > 0 && mftRecord[0] != 0x46
    ensures ParseHeader(mftRecord, sig) == Failure(InvalidSignature)
    ensures ParseHeader(mftRecord, sig).GetOr(ZeroHeader) == ZeroHeader
  {
    assert sig[0] == 0x46;
  }

  /** The recorded case itself: [0, 'I', 'L', 'E', '0'] is refused. */
  lemma CorruptedSignatureVector(sig: seq<byte>)
    requires AdmissibleSignature(sig)
    ensures ParseHeader([0, 73, 76, 69, 48], sig) == Failure(InvalidSignature)
  {
    WrongFirstByte([0, 73, 76, 69, 48], sig);
  }

  /** The four timestamp windows of record 0's standard-information attribute
      hold the same tick count. */
  lemma StdInfoStamps()
    ensures |Record0StdInfo| == 0x60
    ensures Record0StdInfo[0x18..0x20] == Record0StdInfo[0x20..0x28]
      == Record0StdInfo[0x28..0x30] == Record0StdInfo[0x30..0x38]
  {
    var attr := Record0StdInfo;
    var stamp := [234, 36, 205, 74, 116, 212, 209, 1];
    forall off | off in {0x18, 0x20, 0x28, 0x30}
      ensures SI.Window(attr, off) == stamp
    {
      assert attr[off] == 234 && attr[off + 1] == 36 && attr[off + 2] == 205 && attr[off + 3] == 74;
      assert attr[off + 4] == 116 && attr[off + 5] == 212 && attr[off + 6] == 209 && attr[off + 7] == 1;
    }
    assert SI.Window(attr, 0x18) == SI.Window(attr, 0x20) == SI.Window(attr, 0x28) == SI.Window(attr, 0x30);
  }

  /** The type code, length and residency byte of record 0's
      standard-information attribute. */
  lemma StdInfoHeader()
    ensures |Record0StdInfo| == 0x60
    ensures Record0StdInfo[..4] == [0x10, 0, 0, 0] && Record0StdInfo[4..8] == [0x60, 0, 0, 0]
    ensures Record0StdInfo[SI.OffsetResidentFlag] == 0
  {
    var attr := Record0StdInfo;
    assert attr[0] == 0x10 && attr[1] == 0 && attr[2] == 0 && attr[3] == 0;
    assert attr[4] == 0x60 && attr[5] == 0 && attr[6] == 0 && attr[7] == 0;
  }

  /** The standard-information attribute record 0 carries at its attribute
      offset (type 0x10, length 0x60) decodes, when a zero residency byte
      means resident, to a resident attribute with four equal timestamps. */
  lemma Record0StandardInformation(convert: seq<byte> -> TimeParse)
    ensures Record0[56..60] == [0x10, 0, 0, 0] && Record0[60..64] == [0x60, 0, 0, 0]
    ensures var a := SI.Parse(Record0[56..56 + 0x60], b => b == 0, convert);
      && a.err.None? && a.attr.flagResident
      && a.attr.siCreated == a.attr.siModified == a.attr.siChanged == a.attr.siAccessed
  {
    var attr := Record0StdInfo;
    Record0Parts();
    assert Record0[56..60] == attr[..4] && Record0[60..64] == attr[4..8];
    StdInfoHeader();
    StdInfoStamps();
    SI.EqualWindowsGiveEqualTimestamps(attr, b => b == 0, convert);
  }

  /** Cutting record 0 at 0x68 leaves the first 0x30 bytes of its
      standard-information attribute before the cut and the accessed
      timestamp right after it. */
  lemma Record0Cut()
    ensures |Record0[56..0x68]| == 0x30 && |Record0[0x68..]| >= 8
    ensures Record0[56..0x68][SI.OffsetResidentFlag] == 0
    ensures (Record0[56..0x68] + Record0[0x68..])[0x30..0x38] == Record0StdInfo[0x30..0x38]
  {
    Record0Parts();
    StdInfoHeader();
    assert Record0[56..0x68] + Record0[0x68..] == Record0[56..];
    assert Record0[56..][0x30..0x38] == Record0[56..56 + 0x60][0x30..0x38];
  }

  /** The first 0x30 bytes of that attribute, cut out of record 0 so that the
      rest of the record stays as spare capacity: the source's guard lets them
      through and, instead of panicking, it reads the accessed timestamp from
      the 8 bytes after the cut, while the corrected decoder refuses them. */
  lemma Record0CutAttributeReadsPastEnd(convert: seq<byte> -> TimeParse)
    ensures var r := SI.ParseAsWritten(Record0[56..0x68], Record0[0x68..], b => b == 0, convert);
      r.Returned? && r.parsed.err.None? && r.parsed.attr.siAccessed == convert(Record0StdInfo[0x30..0x38]).time
    ensures SI.Parse(Record0[56..0x68], b => b == 0, convert).err == Some(SI.TimestampsTruncated)
  {
    Record0Cut();
  }
}
