# NTFS MFT record decoders

A Dafny model of two decoders of a Go parser for the Master File Table (MFT)
of the NTFS filesystem:

- the **standard-information attribute decoder**
  (`RawStandardInformationAttribute.Parse`): from the raw bytes of one
  attribute it checks a minimum length, reads the residency byte at 0x08,
  refuses a non-resident attribute, and converts the four 8-byte timestamps
  at 0x18 (created), 0x20 (modified), 0x28 (changed) and 0x30 (accessed),
  dropping any conversion error;
- the **record header decoder** (`RecordHeader.Parse`) and its **flag
  decoder** (`RecordHeaderFlags.Parse`): a signature check at the start of
  the record, then the attribute-list offset (little-endian u16 at 0x14), the
  flag byte at 0x16 and the record number (little-endian u32 at 0x2C). The
  implementation of these two is not part of this model's sources; they are
  modelled to satisfy exactly the recorded cases of `header_test.go`.

Files:

- `wrappers.dfy` — `Option` and `Result`.
- `bytes.dfy` — bytes, little-endian decoding and encoding, and their
  round trips.
- `timestamps.dfy` — the timestamp collaborator's value types.
- `standard_information.dfy` — the attribute decoder, as written and
  corrected (see Findings), and its properties.
- `record_header.dfy` — the flag and header decoders and their properties.
- `header_vectors.dfy` — every recorded test case as a lemma, including the
  1024-byte MFT record 0 and the standard-information attribute it holds.

Modelling choices:

- The two collaborators of the attribute decoder are parameters:
  `isResident: byte -> bool` stands for `RawResidencyFlag.Parse` and
  `convert: seq<byte> -> TimeParse` for `ts.RawTimestamp.Parse`. Every
  property holds for all of them. Only the concrete-input lemmas
  (`AsWrittenPanicsAtGuardLength`, `AsWrittenReadsPastEnd` and the record-0
  lemmas) fix a residency decoder, "zero means resident", which is the
  filesystem's definition and an assumption here, not a transcription.
- A Go slice expression is bounded by the slice's capacity, not its length.
  The as-written decoder therefore takes, beside the attribute's bytes, the
  `spare` bytes of the backing array between its length and its capacity.
- The attribute decoder returns Go's pair of named result and error
  (`Parsed`), so that what a caller sees beside an error is stated too: the
  zero attribute, with `flagResident` false.
- The header decoder returns a `Result`. The Go method fills a pointer
  receiver; `Result.GetOr(ZeroHeader)` is that receiver after a call on a
  zero-initialised one, and the recorded error cases show it stays zero.
- The flag decoder agrees with the recorded cases, not with a bit mask: 0x00
  is deleted, 0x03 is a directory, 0x06 and 0x01 (record 0) are neither. For
  the other 252 byte values the model chooses "neither" (see Left out). A
  bit-mask reading (bit 0 in use, bit 1 directory) would make 0x06 deleted and a
  directory, while the recorded result is neither. `BitMaskFlags` keeps that
  reading as a reference, and `ExactMatchVersusBitMask` says exactly where
  the two agree.
- Which prefix of "FILE0" the header decoder compares is not fixed by the
  recorded cases (only a wrong first byte is exercised). `ParseHeader` takes
  the signature as a parameter `sig`, any non-empty prefix of "FILE0", and
  every lemma holds for each such choice.
- The header decoder's error kinds and their order (signature first, then a
  length of at least 0x30, the end of the record-number field) are a design
  choice of this model: the recorded cases only say that an error occurs.

## Model

| member | source | states |
|---|---|---|
| `StandardInformation.ParseAsWritten` | standardinformation_attribute.go:24-63 | the source's decoder: below 0x30 bytes it returns the zero attribute with an error; a non-resident byte 0x08 gives the zero attribute (`flagResident` false) with an error; it panics exactly when the length is at least 0x30, length plus spare capacity is below 0x38 and byte 0x08 reads as resident; any success is resident, takes created, modified and changed from the attribute and accessed from bytes 0x30-0x37 of the backing array |
| `StandardInformation.Parse` | standardinformation_attribute.go:39-62 | the corrected decoder: length error exactly below 0x30, non-resident error exactly when long enough and byte 0x08 is not resident, a truncation error exactly for resident inputs in [0x30, 0x38); every error carries the zero attribute; a success is resident, at least 0x38 long, and each timestamp is the collaborator's time for its own window (changed at 0x28, accessed at 0x30) |
| `StandardInformation.AgreesWithAsWritten` | standardinformation_attribute.go:40-56 | outside resident attributes of 0x30-0x37 bytes the corrected decoder returns what the source returns, whatever the spare capacity; on those it reports truncation, where the source either panics or reads the accessed timestamp from beyond the attribute's end |
| `StandardInformation.AsWrittenPanicsAtGuardLength` | standardinformation_attribute.go:40-56 | 0x30 zero bytes with no spare capacity and "zero means resident" pass the source's guard and panic on the accessed slice; the corrected decoder refuses them |
| `StandardInformation.AsWrittenReadsPastEnd` | standardinformation_attribute.go:40-61 | the same 0x30 bytes with 8 or more bytes of spare capacity decode successfully, the accessed timestamp converted from the first 8 spare bytes |
| `StandardInformation.ShortInputReadsNothing` | standardinformation_attribute.go:40-43 | below 0x30 bytes the result is the length error whatever byte 0x08 holds and whatever either collaborator would say |
| `StandardInformation.NonResidentReadsNoTimestamp` | standardinformation_attribute.go:45-50 | a non-resident attribute gives the zero attribute with the non-resident error, independent of the timestamp collaborator |
| `StandardInformation.TimestampErrorsAreDropped` | standardinformation_attribute.go:58-61 | success or failure never depends on the timestamp collaborator; with a zero-on-error collaborator a failed conversion leaves the zero time in that field, for each of the four fields |
| `StandardInformation.TimestampDependsOnOwnWindow` | standardinformation_attribute.go:53-61 | each of the four timestamps is determined by its own 8-byte window |
| `StandardInformation.OnlyFieldBytesMatter` | standardinformation_attribute.go:45-56 | inputs of the same length class that agree on byte 0x08 and on [0x18, 0x38) decode alike |
| `StandardInformation.EqualWindowsGiveEqualTimestamps` | standardinformation_attribute.go:46-61 | a resident attribute whose four windows hold equal bytes decodes to four equal timestamps |
| `Bytes.LittleEndian` | header_test.go:75-79 | the value of an n-byte little-endian field is below 256^n |
| `Bytes.ToLittleEndian` | header_test.go:75-79 | the encoding of a value has the field's width and its least significant byte first |
| `Bytes.DecodeEncode` | header_test.go:75-79 | decoding the encoding of a value gives the value back |
| `Bytes.EncodeDecode` | header_test.go:75-79 | encoding the decoded value of a field gives its bytes back |
| `Bytes.U16At` | header_test.go:75-78 | the u16 read at an offset is the number whose encoding is the two bytes there |
| `Bytes.U32At` | header_test.go:75-79 | the u32 read at an offset is the number whose encoding is the four bytes there |
| `RecordHeaders.ParseFlags` | header_test.go:18-47 | deleted exactly for 0x00, directory exactly for 0x03, never both |
| `RecordHeaders.ExactMatchVersusBitMask` | header_test.go:38-47 | the recorded reading and the bit-mask reading agree exactly on 0x00, 0x03 and bytes whose two low bits are 01 |
| `RecordHeaders.ParseHeader` | header_test.go:72-100 | signature error exactly when the record does not begin with the signature; truncation error exactly when it does but is shorter than 0x30; a success has the u16 at 0x14, the u32 at 0x2C and the flags of byte 0x16 |
| `RecordHeaders.LayOutThenParse` | header_test.go:72-86 | a record laid out from any header values, over any filler, decodes to those values |
| `RecordHeaders.OnlyHeaderFieldsMatter` | header_test.go:72-86 | records of header length that agree on the signature bytes, 0x14-0x16 and 0x2C-0x2F decode alike |
| `HeaderVectors.FlagsDeleted` | header_test.go:18-27 | flag byte 0x00 is deleted and not a directory |
| `HeaderVectors.FlagsDirectory` | header_test.go:28-37 | flag byte 0x03 is a directory and not deleted |
| `HeaderVectors.FlagsOther` | header_test.go:38-47 | flag byte 0x06 is neither, while the bit-mask reading would make it both |
| `HeaderVectors.Record0Decodes` | header_test.go:72-86 | MFT record 0 decodes to attribute offset 56, record number 0 and neither flag |
| `HeaderVectors.NilRecord` | header_test.go:87-93 | an empty record is refused and a zero receiver stays zero |
| `HeaderVectors.WrongFirstByte` | header_test.go:94-100 | any record whose first byte is not 'F' is refused on its signature and a zero receiver stays zero |
| `HeaderVectors.CorruptedSignatureVector` | header_test.go:94-100 | the recorded record [0, 'I', 'L', 'E', '0'] is refused on its signature |
| `HeaderVectors.Record0StandardInformation` | header_test.go:75 | record 0 holds at its attribute offset an attribute of type 0x10 and length 0x60 that decodes, with zero meaning resident, to a resident attribute with four equal timestamps |
| `HeaderVectors.Record0CutAttributeReadsPastEnd` | standardinformation_attribute.go:40-56 | the first 0x30 bytes of record 0's standard-information attribute, cut from the record with the rest as spare capacity, decode under the source with the accessed timestamp read after the cut; the corrected decoder reports truncation |

## Findings

| source | as written | input that shows it | evidently intended | confidence | as-written member | corrected member |
|---|---|---|---|---|---|---|
| standardinformation_attribute.go:40-56 | the guard refuses only inputs shorter than 0x30, but the accessed timestamp is sliced from 0x30 to 0x38 | 0x30 bytes whose byte 0x08 reads as resident: the guard passes; the slice then panics when the capacity is below 0x38, and otherwise reads 8 bytes past the attribute's end | never read past the end: return an error for resident inputs shorter than 0x38 | high; not executed | `StandardInformation.ParseAsWritten` (with `StandardInformation.AsWrittenPanicsAtGuardLength` and `StandardInformation.AsWrittenReadsPastEnd`) | `StandardInformation.Parse` (with `StandardInformation.AgreesWithAsWritten`) |

The flag byte is matched against whole values, as the recorded cases
require, not read as the format's bit mask. The corrected attribute decoder
keeps the code's 0x30 guard and its check order, and adds a truncation error
for resident inputs of [0x30, 0x38) (see Findings).

## Left out

- The attribute dispatcher (the walk over the attribute list from the header's
  attribute offset) and the file-name, data-run and index attributes: their
  source is not part of this model.
- Calendar conversion of timestamps (`ts.RawTimestamp.Parse`, `time.Time`):
  an external library, modelled only as the parameter `convert`; `Time` is
  either Go's zero time or an instant carrying a tick count.
- The residency-byte decoder (`RawResidencyFlag.Parse`): its body is not
  part of this model; it is the parameter `isResident`.
- The implementation files of `RecordHeader.Parse` and
  `RecordHeaderFlags.Parse` are not part of this model; the decoders are
  written to satisfy the recorded cases, which do not fix them everywhere.
- RecordHeaders.ParseFlags: the recorded cases fix only the bytes 0x00,
  0x01, 0x03 and 0x06; "deleted exactly for 0x00", "directory exactly for
  0x03" and "never both" are this model's choice for the other 252 values
  (0x02, in-use clear and directory set, among them).
- RecordHeaders.ParseHeader: the signature length and the error kinds and
  their order are this model's choice; the recorded cases fix only the
  record-0 result and that the two bad inputs fail.
- Header fields other than the attribute offset, the flags and the record
  number are not modelled.
- The error message strings, and the Go test harness (table loops,
  `reflect.DeepEqual`, `t.Run`).
