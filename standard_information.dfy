/** The standard-information attribute decoder: residency and the four file
    timestamps of one raw attribute. */
module StandardInformation {
  import opened Wrappers
  import opened Bytes
  import opened Timestamps

  const OffsetResidentFlag: nat := 0x08
  const OffsetCreated: nat := 0x18
  const OffsetModified: nat := 0x20
  const OffsetChanged: nat := 0x28
  const OffsetAccessed: nat := 0x30
  const TimestampLength: nat := 0x08

  /** The minimum length the source's guard enforces. */
  const GuardLength: nat := 0x30
  /** The length every field read needs: the end of the accessed timestamp. */
  const MinLength: nat := OffsetAccessed + TimestampLength

  /** The decoded attribute, fields in the order the source declares them
      (accessed before changed, although changed lies first in the bytes). */
  datatype StandardInformationAttribute = StandardInformationAttribute(
    siCreated: Time,
    siModified: Time,
    siAccessed: Time,
    siChanged: Time,
    flagResident: bool)

  /** Go's zero `StandardInformationAttribute`. */
  const Zero := StandardInformationAttribute(ZeroTime, ZeroTime, ZeroTime, ZeroTime, false)

  datatype ParseError =
    | InvalidAttributeLength  // too short to hold the fields
    | NonResident             // the residency byte does not read as resident
    | TimestampsTruncated     // long enough for the guard, too short for the accessed timestamp

  /** What `Parse` hands back: the named result and the error beside it. */
  datatype Parsed = Parsed(attr: StandardInformationAttribute, err: Option<ParseError>)

  /** The source's behaviour including the run-time panic of an
      out-of-range slice expression. */
  datatype Outcome = Returned(parsed: Parsed) | SlicePanic

  /** The 8-byte raw timestamp at `off`. */
  function Window(raw: seq<byte>, off: nat): seq<byte>
    requires off + TimestampLength <= |raw|
  {
    raw[off..off + TimestampLength]
  }

  /** The four timestamps and the residency flag read from `raw`. */
  function Fields(raw: seq<byte>, resident: bool, convert: seq<byte> -> TimeParse): StandardInformationAttribute
    requires |raw| >= MinLength
  {
    StandardInformationAttribute(
      siCreated := convert(Window(raw, OffsetCreated)).time,
      siModified := convert(Window(raw, OffsetModified)).time,
      siAccessed := convert(Window(raw, OffsetAccessed)).time,
      siChanged := convert(Window(raw, OffsetChanged)).time,
      flagResident := resident)
  }

  /** The decoder exactly as the source writes it: a length guard of 0x30,
      the residency check, then four slices the last of which ends at 0x38.
      A Go slice expression is bounded by the capacity of the slice, not its
      length: `spare` holds the bytes of the backing array between the
      attribute's length and its capacity (empty when the two are equal).
      `isResident` is the residency-byte decoder and `convert` the timestamp
      collaborator. */
  function ParseAsWritten(raw: seq<byte>, spare: seq<byte>, isResident: byte -> bool,
                          convert: seq<byte> -> TimeParse): (r: Outcome)
    ensures r.SlicePanic? <==>
      GuardLength <= |raw| && |raw| + |spare| < MinLength && isResident(raw[OffsetResidentFlag])
    ensures r.Returned? && r.parsed.err.Some? ==> r.parsed.attr == Zero
    ensures r.Returned? && r.parsed.err.None? ==>
      && r.parsed.attr.flagResident
      && GuardLength <= |raw| && |raw| + |spare| >= MinLength
      && isResident(raw[OffsetResidentFlag])
      && r.parsed.attr.siCreated == convert(raw[0x18..0x20]).time
      && r.parsed.attr.siModified == convert(raw[0x20..0x28]).time
      && r.parsed.attr.siChanged == convert(raw[0x28..0x30]).time
      && r.parsed.attr.siAccessed == convert((raw + spare)[0x30..0x38]).time
  {
    if |raw| < GuardLength then Returned(Parsed(Zero, Some(InvalidAttributeLength)))
    else
      var resident := isResident(raw[OffsetResidentFlag]);
      if !resident then Returned(Parsed(Zero.(flagResident := resident), Some(NonResident)))
      else if |raw + spare| < MinLength then SlicePanic
      else
        var backing := raw + spare;
        assert backing[0x18..0x30] == raw[0x18..0x30];
        assert Window(backing, OffsetCreated) == raw[0x18..0x20];
        assert Window(backing, OffsetModified) == raw[0x20..0x28];
        assert Window(backing, OffsetChanged) == raw[0x28..0x30];
        Returned(Parsed(Fields(backing, resident, convert), None))
  }

  /** The decoder with the panic replaced by an error: it checks length and
      residency in the source's order, then refuses an input that is too short
      for the accessed timestamp. It never fails for a timestamp: whatever
      `convert` reports, its time goes into the field and the error is dropped. */
  function Parse(raw: seq<byte>, isResident: byte -> bool, convert: seq<byte> -> TimeParse): (r: Parsed)
    ensures r.err == Some(InvalidAttributeLength) <==> |raw| < GuardLength
    ensures r.err == Some(NonResident) <==> |raw| >= GuardLength && !isResident(raw[OffsetResidentFlag])
    ensures r.err == Some(TimestampsTruncated) <==>
      GuardLength <= |raw| < MinLength && isResident(raw[OffsetResidentFlag])
    ensures r.err.Some? ==> r.attr == Zero
    ensures r.err.None? ==> r.attr.flagResident
    ensures r.err.None? ==>
      && |raw| >= MinLength
      && r.attr.siCreated == convert(raw[0x18..0x20]).time
      && r.attr.siModified == convert(raw[0x20..0x28]).time
      && r.attr.siChanged == convert(raw[0x28..0x30]).time
      && r.attr.siAccessed == convert(raw[0x30..0x38]).time
  {
    if |raw| < GuardLength then Parsed(Zero, Some(InvalidAttributeLength))
    else
      var resident := isResident(raw[OffsetResidentFlag]);
      if !resident then Parsed(Zero.(flagResident := resident), Some(NonResident))
      else if |raw| < MinLength then Parsed(Zero, Some(TimestampsTruncated))
      else Parsed(Fields(raw, resident, convert), None)
  }

  /** The corrected decoder differs from the source only on resident
      attributes of 0x30 to 0x37 bytes, which it refuses; there the source
      either panics or reads the accessed timestamp from beyond the
      attribute's end. On every other input the two return the same thing. */
  lemma AgreesWithAsWritten(raw: seq<byte>, spare: seq<byte>, isResident: byte -> bool,
                            convert: seq<byte> -> TimeParse)
    ensures !(GuardLength <= |raw| < MinLength && isResident(raw[OffsetResidentFlag]))
      ==> ParseAsWritten(raw, spare, isResident, convert) == Returned(Parse(raw, isResident, convert))
    ensures GuardLength <= |raw| < MinLength && isResident(raw[OffsetResidentFlag]) ==>
      && Parse(raw, isResident, convert) == Parsed(Zero, Some(TimestampsTruncated))
      && var r := ParseAsWritten(raw, spare, isResident, convert);
         (r.SlicePanic? || (r.parsed.err.None? && r.parsed.attr.siAccessed == convert((raw + spare)[0x30..0x38]).time))
  {
    if |raw| >= MinLength && isResident(raw[OffsetResidentFlag]) {
      assert (raw + spare)[0x30..0x38] == raw[0x30..0x38];
    }
  }

  /** A concrete input the source's guard lets through and then slices past
      its capacity: 0x30 zero bytes with no spare capacity and a residency
      decoder for which zero means resident. */
  lemma AsWrittenPanicsAtGuardLength(convert: seq<byte> -> TimeParse)
    ensures ParseAsWritten(seq(0x30, _ => 0), [], b => b == 0, convert) == SlicePanic
    ensures Parse(seq(0x30, _ => 0), b => b == 0, convert) == Parsed(Zero, Some(TimestampsTruncated))
  {
  }

  /** The same 0x30 bytes with at least 8 bytes of spare capacity: the source
      succeeds and takes the accessed timestamp from the 8 bytes after the
      attribute's end. */
  lemma AsWrittenReadsPastEnd(spare: seq<byte>, convert: seq<byte> -> TimeParse)
    requires |spare| >= TimestampLength
    ensures var r := ParseAsWritten(seq(0x30, _ => 0), spare, b => b == 0, convert);
      r.Returned? && r.parsed.err.None? && r.parsed.attr.siAccessed == convert(spare[..8]).time
  {
    assert (seq(0x30, _ => 0) + spare)[0x30..0x38] == spare[..8];
  }

  /** An input too short for the guard fails on length whatever byte 0x08
      holds and whatever the collaborators would say: neither is consulted. */
  lemma ShortInputReadsNothing(raw: seq<byte>, spare: seq<byte>, isResident1: byte -> bool, isResident2: byte -> bool,
                               convert1: seq<byte> -> TimeParse, convert2: seq<byte> -> TimeParse)
    requires |raw| < GuardLength
    ensures ParseAsWritten(raw, spare, isResident1, convert1) == ParseAsWritten(raw, spare, isResident2, convert2)
      == Returned(Parsed(Zero, Some(InvalidAttributeLength)))
    ensures Parse(raw, isResident1, convert1) == Parse(raw, isResident2, convert2)
      == Parsed(Zero, Some(InvalidAttributeLength))
  {
  }

  /** A non-resident attribute is refused before any timestamp is converted:
      the result does not depend on the timestamp collaborator and is the zero
      attribute, `flagResident` false included. */
  lemma NonResidentReadsNoTimestamp(raw: seq<byte>, spare: seq<byte>, isResident: byte -> bool,
                                    convert1: seq<byte> -> TimeParse, convert2: seq<byte> -> TimeParse)
    requires |raw| >= GuardLength && !isResident(raw[OffsetResidentFlag])
    ensures ParseAsWritten(raw, spare, isResident, convert1) == ParseAsWritten(raw, spare, isResident, convert2)
      == Returned(Parsed(Zero, Some(NonResident)))
    ensures !Parse(raw, isResident, convert1).attr.flagResident
  {
  }

  /** Whether the decode succeeds never depends on the timestamp collaborator:
      a timestamp that fails to convert does not fail the attribute. When the
      collaborator follows Go's zero-on-error convention, such a field is the
      zero time. */
  lemma TimestampErrorsAreDropped(raw: seq<byte>, isResident: byte -> bool,
                                  convert1: seq<byte> -> TimeParse, convert2: seq<byte> -> TimeParse)
    ensures Parse(raw, isResident, convert1).err == Parse(raw, isResident, convert2).err
    ensures Parse(raw, isResident, convert1).err.None? && ZeroOnFailure(convert1)
      && !convert1(raw[OffsetCreated..OffsetCreated + TimestampLength]).ok
      ==> Parse(raw, isResident, convert1).attr.siCreated == ZeroTime
    ensures Parse(raw, isResident, convert1).err.None? && ZeroOnFailure(convert1)
      && !convert1(raw[OffsetModified..OffsetModified + TimestampLength]).ok
      ==> Parse(raw, isResident, convert1).attr.siModified == ZeroTime
    ensures Parse(raw, isResident, convert1).err.None? && ZeroOnFailure(convert1)
      && !convert1(raw[OffsetChanged..OffsetChanged + TimestampLength]).ok
      ==> Parse(raw, isResident, convert1).attr.siChanged == ZeroTime
    ensures Parse(raw, isResident, convert1).err.None? && ZeroOnFailure(convert1)
      && !convert1(raw[OffsetAccessed..OffsetAccessed + TimestampLength]).ok
      ==> Parse(raw, isResident, convert1).attr.siAccessed == ZeroTime
  {
  }

  /** Each timestamp is a function of its own 8-byte window alone: two
      attributes whose created windows agree have equal created fields, and so
      on for the other three. */
  lemma TimestampDependsOnOwnWindow(raw1: seq<byte>, raw2: seq<byte>, isResident: byte -> bool,
                                    convert: seq<byte> -> TimeParse)
    requires Parse(raw1, isResident, convert).err.None? && Parse(raw2, isResident, convert).err.None?
    ensures raw1[0x18..0x20] == raw2[0x18..0x20]
      ==> Parse(raw1, isResident, convert).attr.siCreated == Parse(raw2, isResident, convert).attr.siCreated
    ensures raw1[0x20..0x28] == raw2[0x20..0x28]
      ==> Parse(raw1, isResident, convert).attr.siModified == Parse(raw2, isResident, convert).attr.siModified
    ensures raw1[0x28..0x30] == raw2[0x28..0x30]
      ==> Parse(raw1, isResident, convert).attr.siChanged == Parse(raw2, isResident, convert).attr.siChanged
    ensures raw1[0x30..0x38] == raw2[0x30..0x38]
      ==> Parse(raw1, isResident, convert).attr.siAccessed == Parse(raw2, isResident, convert).attr.siAccessed
  {
  }

  /** Bytes other than the residency byte and the timestamp region
      [0x18, 0x38) do not affect the result, beyond whether the input is
      long enough. */
  lemma OnlyFieldBytesMatter(raw1: seq<byte>, raw2: seq<byte>, isResident: byte -> bool,
                             convert: seq<byte> -> TimeParse)
    requires |raw1| >= GuardLength <==> |raw2| >= GuardLength
    requires |raw1| >= MinLength <==> |raw2| >= MinLength
    requires |raw1| >= GuardLength ==> raw1[OffsetResidentFlag] == raw2[OffsetResidentFlag]
    requires |raw1| >= MinLength ==> forall i :: OffsetCreated <= i < MinLength ==> raw1[i] == raw2[i]
    ensures Parse(raw1, isResident, convert) == Parse(raw2, isResident, convert)
  {
    if |raw1| >= MinLength {
      forall off | off in {OffsetCreated, OffsetModified, OffsetChanged, OffsetAccessed}
        ensures Window(raw1, off) == Window(raw2, off)
      {
      }
    }
  }

  /** When the four windows hold the same bytes the four timestamps are equal,
      and a successful decode reports a resident attribute. */
  lemma EqualWindowsGiveEqualTimestamps(raw: seq<byte>, isResident: byte -> bool,
                                        convert: seq<byte> -> TimeParse)
    requires |raw| >= MinLength && isResident(raw[OffsetResidentFlag])
    requires raw[0x18..0x20] == raw[0x20..0x28] == raw[0x28..0x30] == raw[0x30..0x38]
    ensures var a := Parse(raw, isResident, convert).attr;
      a.flagResident && a.siCreated == a.siModified == a.siChanged == a.siAccessed
  {
  }
}
