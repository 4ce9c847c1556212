# GlobalPlatform smart-card framing in Dafny

This project models the core of the Go implementation (`goimpl`) of the
LLKennedy/GlobalPlatform library. The library talks to smart cards in APDUs,
the command and response units of ISO/IEC 7816-4. The model covers these parts:

- **BER-TLV codec** (`bertlv`), with the encoding rules of ITU-T X.690 section 8.1:
  - tag identifier octets, in the short form and in the base-128 long form;
  - length octets, in the short form and in the long form of up to eight octets;
  - the object `Reader` and `Writer` over byte streams.
- **APDU layer** (`apdu`):
  - the interindustry class byte CLA (ISO/IEC 7816-4 section 5.1.1);
  - the command serializer, with short and extended Lc/Le fields (section 5.1);
  - the response parser and the nil-transport check of `Send`;
  - the classification of the SW1-SW2 status words (section 5.1.3);
  - the `Error` type and its message strings;
  - the BER-TLV instruction bit.
- **GlobalPlatform layer** (`gpapdu`, `scp03`, `lifcecycle`):
  - the GlobalPlatform class byte and the conversion of a GlobalPlatform command to an APDU;
  - the three application privilege bytes (section 11.1.2 of the GlobalPlatform Card Specification);
  - the SCP03 "i" configuration byte;
  - the receipt prefix of the unfinished confirmation parser;
  - the validity check on custom application life-cycle states.

The modules follow the source packages. Most source files become one Dafny module;
`reader.go`, `writer.go` and `object.go` together become `BerObject`. `Octets` and
`Streams` hold the shared octet arithmetic and the stream classes. Where the lemmas
about a module are many, they sit in a companion `…Props` module. `ApduInstructions`,
`GpClass`, `Scp03Config` and `LifecycleApplication` keep their few lemmas beside
their definitions. How the code maps to Dafny:

- **Pure Go functions** become Dafny functions.
- **Go code built from loops and mutable locals** becomes methods. Examples are the
  tag loops, the bit reader, the length trimmer, the command buffer and the
  confirmation parser. Each method is proved against a specification function.
  - `TagFromReader`, `LengthFromReader` and the object `Reader` work on a `ByteReader` class.
    It models `bytes.Reader`: a position that advances, and a destination buffer filled in place.
  - The `Writer` appends to a `ByteWriter`.
- **Byte widths** are modelled with bit-vectors: `byte` is `bv8`, `uint16` is `bv16`
  and `uint64` is `bv64`. Wrap-around on shifts is therefore exact.
- **Lengths** are mathematical integers, bounded as in the source.

Deliberate differences in representation:

- The 24 boolean fields of `Privileges` are grouped into three records, one per privilege byte.
- The `apdu.Class` interface field of a command becomes `Option<byte>`. The Go nil
  class is `None`, which serializes as `0xFF`.
- Nil and empty Go slices are both the empty sequence.
- Go errors are datatype variants. Each variant's comment gives the message.
  The `apdu.Error` strings are an exception: they are modelled character for character.
- `Command.ToBytes` appends into its output slice as it builds it. The model fills a
  fresh array of the final size with the four parts.

One disagreement between tests and code: the command test vectors in
`goimpl/apdu/commandpair_test.go` named 2e.1, 2e.2, 3e.1 and the second "4s.3"
expect extended length fields without the `0x00` marker byte. The code emits
that marker, as ISO/IEC 7816-4 section 5.1 requires. The model follows the code.
`ApduCommandExamples` proves what the code produces for those inputs.

## Model

| member | source | states |
|---|---|---|
| BerTag.Tag.ToBytes | goimpl/bertlv/tag.go:34-75 | a class outside 0..3 gives the invalid-class error and no octets; otherwise the result is `TagBytes`, the X.690 identifier octets |
| BerTag.Tag.Write | goimpl/bertlv/tag.go:78-91 | appends exactly the identifier octets to the writer, or gives the class error and writes nothing |
| BerTag.KnownClass | goimpl/bertlv/tag.go:35-39 | the four named classes are exactly the class values 0..3 |
| BerTag.SubsequentOctets | goimpl/bertlv/tag.go:49-73 | the long-form part of the encoding is the base-128 digits of the number, most significant first, with b8 set on all but the last |
| BerTag.CountGroups | goimpl/bertlv/tag.go:51-57 | the counting loop finds the minimal number of seven-bit groups, between 1 and 10 |
| BerTag.FormatNumber | goimpl/bertlv/tag.go:58-72 | the filling loop produces `Formatted`: octet k holds the 7 stream bits that belong to it, with b8 on all but the last |
| BerTag.PackGroup | goimpl/bertlv/tag.go:68-71 | the inner loop ORs the next seven stream bits into the octet, least significant first, and advances the reader by exactly 7 bits |
| BerTag.FormattedGroups | goimpl/bertlv/tag.go:49-72 | the bits read back from the 9-byte big-endian image are the number's base-128 digits, with at most 10 groups |
| BerTag.ReverseBitReader.ReadBit | goimpl/bertlv/tag.go:145-159 | returns b1 or 0 for the bit at the current position, counted from the least significant bit of the last byte, and advances one position; the requires is the index bound that would otherwise panic |
| BerTag.TagFromReader | goimpl/bertlv/tag.go:94-137 | consumes exactly `readTotal` octets and returns what the decoding function `DecodeTag` gives on the remaining input |
| BerTag.ReadSubsequent | goimpl/bertlv/tag.go:108-123 | reads up to and including the first octet with b8 clear and keeps the low seven bits of each; at end of input it reports truncation after consuming everything |
| BerTag.AssembleNumber | goimpl/bertlv/tag.go:124-130 | the assembling loop ORs group len-1-i shifted by 7i bits, giving `Assembled` |
| BerTagProps.DecodeTagBytes | goimpl/bertlv/tag.go:34-137 | round trip: for every class 0..3, either constructed flag and every 64-bit number, decoding the encoding followed by any octets gives the tag back, consumes exactly the encoding, and gives no error |
| BerTagProps.FirstOctetFields | goimpl/bertlv/tag.go:40-107 | the first octet carries the class in b8-b7 and the constructed flag in b6; the number sits in b5-b1 when it is at most 30, and the marker 31 is there otherwise |
| BerTagProps.GroupsAssemble | goimpl/bertlv/tag.go:124-130 | assembling the seven-bit groups of any 64-bit number gives the number back |
| BerTagProps.GroupsBelow | goimpl/bertlv/tag.go:51-57 | after k-1 rounds the counting loop's `upperLimit` bounds every number with at most k groups |
| BerTagProps.TopGroupSmall | goimpl/bertlv/tag.go:124 | a 64-bit number needing 10 groups has a leading group below 2, so the decoder's size guard admits it |
| BerTagProps.SpanOfSubsequent | goimpl/bertlv/tag.go:110-123 | the decoder's read loop stops exactly at the last subsequent octet that the encoder emits |
| BerTagProps.SubsequentLowBits | goimpl/bertlv/tag.go:118-119 | masking the subsequent octets with 0x7F gives the groups back |
| BerTagProps.TagBytesLength | goimpl/bertlv/tag.go:40-74 | the encoding is one octet iff the number is at most 30, and is never longer than 11 octets |
| BerTagProps.DecodeTagBounds | goimpl/bertlv/tag.go:94-137 | the decoder never consumes more than the input holds; on success it has consumed at least one octet and decoded a class in 0..3 |
| BerTagProps.ExampleLowNumber | goimpl/bertlv/tag_test.go:18-27 | context-specific constructed tag 27 is `BB`, both ways |
| BerTagProps.ExampleEdges | goimpl/bertlv/tag_test.go:37-76 | the 30, 31, 127 and 128 edges encode as `7E`, `7F 1F`, `DF 7F` and `1F 81 00` |
| BerTagProps.ExampleLarge | goimpl/bertlv/tag_test.go:77-86 | 1234567890 encodes as `1F 84 CC D8 85 52` |
| BerTagProps.DecodeTagTruncated | goimpl/bertlv/tag.go:110-117 | a long-form first octet followed only by octets with b8 set gives the truncation error, counts every octet, and sets the class and constructed flag with number 0 |
| BerTagProps.DecodeTagTooLarge | goimpl/bertlv/tag.go:110-135 | a long-form tag whose subsequent octets form more than 10 groups, or 10 with a leading group of 2 or more, gives the "not implemented" error whatever follows, counts 1 + the groups, and leaves number 0 |
| BerTagProps.ExampleNoFinalByte | goimpl/bertlv/tag_test.go:227-238 | input ending before an octet with b8 clear gives the truncation error, with the class and constructed flag set, the number 0, and every octet counted |
| BerTagProps.ExampleLongFormOfSmallNumber | goimpl/bertlv/tag.go:103-130 | the decoder accepts the non-minimal `1F 05` as number 5, which the encoder writes as `05`, so re-encoding is the identity only on canonical input |
| BerLength.LengthToBytes | goimpl/bertlv/length.go:48-63 | the result is `LengthOctets`: a single octet below 128, and otherwise the count octet followed by the big-endian value with its leading zero octets trimmed |
| BerLength.TrimLeadingZeros | goimpl/bertlv/length.go:56-61 | the trimming loop drops exactly the leading zero octets, and leaves an all-zero input unchanged |
| BerLength.LeadingZeros | goimpl/bertlv/length.go:56-61 | counts the zero octets before the first nonzero one |
| BerLength.DecodeLength | goimpl/bertlv/length.go:10-45 | never reports more octets consumed than the input holds |
| BerLength.LengthFromReader | goimpl/bertlv/length.go:10-45 | consumes exactly `bytesRead` octets and returns what `DecodeLength` gives on the remaining input, including the panic outcome of line 42 |
| BerLength.DecodeLengthPadded | goimpl/bertlv/length.go:34-43 | the corrected decoder: it left-pads the long-form content to eight octets, and consumes no more than the input holds |
| BerLengthProps.LengthOctetsShape | goimpl/bertlv/length.go:48-63 | below 128 the encoding is `[length]`; otherwise it is 2 to 9 octets, a count octet `0x80 \| n`, then n octets with a nonzero first octet whose big-endian value is the length |
| BerLengthProps.NeverIndefinite | goimpl/bertlv/length.go:48-63 | the encoder never emits the indefinite-length marker `0x80` as its first octet |
| BerLengthProps.LongContentValue | goimpl/bertlv/length.go:53-62 | the trimmed content is 1 to 8 octets, starts nonzero, is the 8-byte image without its zero prefix, and has the length as its value |
| BerLengthProps.FullContent | goimpl/bertlv/length.go:53-62 | the content is a full 8 octets exactly when the length is at least 2^56 |
| BerLengthProps.DecodeLengthOctets | goimpl/bertlv/length.go:10-63 | decoding an encoded length, whatever follows it, gives it back for lengths below 128 or at least 2^56; every other length reaches the panic |
| BerLengthProps.DecodeLengthPaddedOctets | goimpl/bertlv/length.go:10-63 | with the corrected decoder, every encoded length decodes back to itself and consumes exactly its octets |
| BerLengthProps.DecodeLongForm | goimpl/bertlv/length.go:29-43 | for a long form with n content octets: the as-written decoder succeeds only for n = 8, and the corrected one always gives the padded value |
| BerLengthProps.DecodeLengthAccepts | goimpl/bertlv/length.go:10-45 | the decoder succeeds iff the first octet is below `0x80`, or it is `0x88` with eight octets following; the value in each case is also given |
| BerLengthProps.DecodeLengthErrors | goimpl/bertlv/length.go:10-41 | each error case iff its input: no input; the indefinite `0x80`; a count above 8 (after one octet); or fewer content octets than announced |
| BerLengthProps.ExampleShortLengths | goimpl/bertlv/length.go:49-52 | 0 and 127 encode as one octet, and `88 00…05` decodes to 5 |
| BerLengthProps.ExampleLongLength | goimpl/bertlv/length.go:53-62 | 128 encodes as `81 80` |
| BerLengthProps.ExampleLongLengthRejected | goimpl/bertlv/length.go:42 | `81 80` reaches the panic in the as-written decoder, and decodes to 128 in the corrected one |
| BerLengthProps.ExampleEightOctets | goimpl/bertlv/length.go:42 | a full eight-octet long form decodes to 2^56 |
| BerObject.Reader.Read | goimpl/bertlv/reader.go:30-52 | advances the stream by exactly `bytesRead`, the sum of the tag, length and value octets consumed, and returns what `DecodeObject` gives on the remaining input, including the allocation panic for a length above 2^63-1 |
| BerObject.Reader.ReadWithoutTag | goimpl/bertlv/reader.go:55-70 | the same, with `DecodeUntagged`: Read's steps without the tag, leaving the tag zero |
| BerObject.Reader.ReadValueOctets | goimpl/bertlv/reader.go:45-50 | a length above 2^63-1, the longest Go slice, makes `make` panic and reads nothing; otherwise a fresh zero buffer of the decoded length receives as many octets as remain, and the read fails only when nothing is left |
| BerObject.DecodeObjectSteps | goimpl/bertlv/reader.go:31-44 | a tag error gives the zero object and the tag octets as `bytesRead`; otherwise the result is the length-and-value step after the tag |
| BerObject.NewReader | goimpl/bertlv/reader.go:15-22 | fails exactly on a missing stream |
| BerObject.NewBytesReader | goimpl/bertlv/reader.go:25-27 | a reader over a fresh stream positioned at the start of the octets |
| BerObject.Writer.Write | goimpl/bertlv/writer.go:23-48 | an invalid tag class gives the conversion error, writes nothing and reports 0 octets; otherwise it appends tag, length-of-value and value, and reports their total size; the requires is the most octets a Go slice holds, 2^63-1 |
| BerObject.NewWriter | goimpl/bertlv/writer.go:14-21 | fails exactly on a missing output |
| BerObjectProps.ReadWritten | goimpl/bertlv/reader.go:30-52 | Read over Write's output, followed by anything, gives the tag and value back, with `Length` equal to the value's length; this holds for values shorter than 128 octets or of 2^56 to 2^63-1 octets, given some input remains for the value read |
| BerObjectProps.ReadWrittenPanics | goimpl/bertlv/length.go:42 | for value lengths from 128 to 2^56-1, reading Write's output fails in the length step with the panic outcome |
| BerObjectProps.ReadWrittenEmpty | goimpl/bertlv/writer.go:23-48 | an empty value is written as the tag and `00`; read back on its own, it reports the value-read error |
| BerObjectProps.EncodeIgnoresLength | goimpl/bertlv/writer.go:35 | the caller's `Length` field has no effect on the output |
| BerObjectProps.ReadIsTagThenUntagged | goimpl/bertlv/reader.go:30-70 | Read over a tag's encoding is ReadWithoutTag on the rest, with that tag and its octets added |
| BerObjectProps.DecodeObjectShape | goimpl/bertlv/reader.go:31-50 | a tag error leaves the zero object; a length error leaves only the tag; the allocation panic comes with a `Length` above 2^63-1 and no value; otherwise `Length` is at most 2^63-1 and the value has exactly `Length` octets, zero-padded where the input was short |
| BerObjectProps.UntaggedAllocationPanics | goimpl/bertlv/reader.go:56-63 | the value buffer cannot be made exactly when the length decodes without error to more than 2^63-1 |
| BerObjectProps.ExampleAllocationPanic | goimpl/bertlv/reader.go:44-45 | `03 88 80 00 00 00 00 00 00 00 01` decodes the length 2^63 after 10 octets and panics in the allocation |
| BerObjectProps.DecodeObjectPadded | goimpl/bertlv/reader.go:30-52 | the reader with the corrected length decoder; on a tag error it agrees with the as-written reader |
| BerObjectProps.ReadWrittenPadded | goimpl/bertlv/reader.go:30-52 | with the corrected length decoder, Read takes back whatever Write emits, for every value a Go slice can hold |
| BerObjectProps.ExampleBitString | goimpl/bertlv/reader_test.go:43-58 | `03 07 04 0A 3B 5F 29 1C D0` reads as universal primitive tag 3 with Length 7, the seven octets and 9 octets read; Write produces those octets whatever the `Length` field holds |
| BerObjectProps.ExampleShortValue | goimpl/bertlv/reader.go:45-50 | a value shorter than its length is zero-padded and is not an error |
| Streams.ByteReader.Read | goimpl/bertlv/reader.go:46 | the `bytes.Reader` contract: it copies min(buffer, remaining) octets, advances by that much, leaves the rest of the buffer alone, and reports end of input iff nothing remained |
| Streams.ByteWriter.Write | goimpl/bertlv/writer.go:42 | appends every octet and reports them all written |
| ApduClass.InterindustryClass.ToClassByte | goimpl/apdu/class.go:41-71 | b8 is never set; b5 is set iff the command is not the last of a chain |
| ApduClass.InterindustryClass.ToInterindustry | goimpl/apdu/class.go:74-76 | the class converts to itself, with the same byte |
| ApduClass.InterindustryClass.IsLastCommand | goimpl/apdu/class.go:79-81 | true iff b5 of the class byte is clear |
| ApduClass.InterindustryClass.GetSMIndication | goimpl/apdu/class.go:84-92 | the indication is 0-3; for channels 4-19 it is none or "no header processing"; above 19 it is none |
| ApduClass.InterindustryClass.GetLogicalChannel | goimpl/apdu/class.go:95-100 | at most 19, and equal to the channel whenever the channel is at most 19 |
| ApduClassProps.FirstFormBits | goimpl/apdu/class.go:43-66 | for channels 0-3 and above 19, b8-b6 are clear, b2-b1 hold the channel (0 above 19) and b4-b3 hold an indication up to 3 |
| ApduClassProps.FurtherFormBits | goimpl/apdu/class.go:45-69 | for channels 4-19 the byte is of the form `01xx xxxx`, with the channel less 4 in b4-b1 and b6 set iff the indication is "no header processing" |
| ApduClassProps.FieldsAgree | goimpl/apdu/class.go:41-100 | for channels up to 19, the indication and channel read from the byte's ISO/IEC 7816-4 layout equal what the getters report |
| ApduClassProps.SMAgreement | goimpl/apdu/class.go:55-91 | the channel always agrees; the indication agrees iff the class is not one above channel 19 with an indication of 1 to 3 |
| ApduClassProps.ClassByteFields | goimpl/apdu/class.go:41-71 | a class whose fields its form can carry is recovered from its byte |
| ApduClassProps.ExampleClassBytes | goimpl/apdu/class.go:41-71 | five concrete class bytes, one per form and edge |
| GpClass.Class.ToClassByte | goimpl/gpapdu/class.go:13-19 | b8 is set iff it is a GlobalPlatform command; the low seven bits are the interindustry byte; with the flag off the byte is the interindustry byte |
| GpClass.Class.ToInterindustry | goimpl/gpapdu/class.go:7 | the promoted method returns the embedded class, whose byte is the GlobalPlatform byte without b8 |
| ApduCommand.Command.ToBytes | goimpl/apdu/commandpair.go:19-73 | the serialized command equals `Encoding`: header, then the Lc field, the data and the Le field |
| ApduCommand.BuildOut | goimpl/apdu/commandpair.go:66-72 | the output buffer holds header, Lc, data and Le in that order |
| ApduCommand.HeaderOnlyFields | goimpl/apdu/commandpair.go:28-31 | a command with no data, no response expected and Le 0 encodes as its 4-octet header |
| ApduCommandProps.EncodingLayout | goimpl/apdu/commandpair.go:20-72 | the length is 4 + \|Lc\| + \|data\| + \|Le\|; the parts sit at their offsets; the header is CLA INS P1 P2, with a nil class giving `FF` |
| ApduCommandProps.HeaderOnlyEncoding | goimpl/apdu/commandpair.go:28-31 | the encoding is 4 octets iff the command is header-only |
| ApduCommandProps.ExtendedExactly | goimpl/apdu/commandpair.go:34 | the extended form is used iff Le is present and stands for more than 256, or the data exceed 256 octets; Le 0 with a response expected stands for 65536 |
| ApduCommandProps.LeFieldShape | goimpl/apdu/commandpair.go:35-48 | Le is absent iff no response is expected and Le is 0; it is one octet in short form, 3 octets in extended form without data, and 2 octets with data |
| ApduCommandProps.LcFieldShape | goimpl/apdu/commandpair.go:49-65 | Lc is absent iff there are no data; it is one octet in short form; in extended form it starts with `00` and is 3 octets, or 2 for 65536 data octets |
| ApduCommandProps.ExtendedMarker | goimpl/apdu/commandpair.go:36-58 | an extended command always has `00` right after the header |
| ApduCommandProps.LeDecodes | goimpl/apdu/commandpair.go:35-48 | reading the Le field back, with `00` meaning 256 and `00 00` meaning 65536, gives the expected length |
| ApduCommandProps.LcDecodes | goimpl/apdu/commandpair.go:49-65 | reading the Lc field back the same way gives the number of data octets |
| ApduCommandExamples.ExampleCase1 | goimpl/apdu/commandpair_test.go:25-34 | case 1 is the bare header `12 34 56 78` |
| ApduCommandExamples.ExampleCase2 | goimpl/apdu/commandpair_test.go:35-56 | short Le: 128 gives `80`, 256 gives `00` |
| ApduCommandExamples.ExampleCase2Extended | goimpl/apdu/commandpair_test.go:57-79 | extended Le with no data: 300 gives `00 01 2C`; 0 with a response expected gives `00 00 00` |
| ApduCommandExamples.ExampleCase3 | goimpl/apdu/commandpair_test.go:80-108 | short Lc: 3 data octets give `03`, 256 give `00`, with no Le |
| ApduCommandExamples.ExampleCase3Extended | goimpl/apdu/commandpair_test.go:109-144 | extended Lc: 300 data octets give `00 01 2C`, 65536 give `00 00` |
| ApduCommandExamples.ExampleCase4 | goimpl/apdu/commandpair_test.go:145-202 | case 4 in short form, with both fields one octet each |
| ApduCommandExamples.ExampleCase4Extended | goimpl/apdu/commandpair_test.go:203-237 | 65536 data octets with Le 128 give Lc `00 00` and Le `00 80`; with a response expected and Le 0, Le is `00 00` |
| ApduCommandExamples.ExampleCase4ExtendedMarker | goimpl/apdu/commandpair_test.go:238-254 | 12 data octets with Le 10000 give Lc `00 00 0C` |
| ApduCommandExamples.ExampleCase4ExtendedLe | goimpl/apdu/commandpair_test.go:238-254 | the same command has Le `27 10` |
| ApduCommand.ResponseFromBytes | goimpl/apdu/commandpair.go:90-103 | fewer than 2 octets give the error and an empty response; otherwise the data followed by the status word are exactly the input, and SW1SW2 = 256·d[n-2] + d[n-1] |
| ApduCommand.ResponseBytesInjective | goimpl/apdu/commandpair.go:90-103 | distinct responses have distinct octets, so the parse is a round trip |
| ApduCommand.Send | goimpl/apdu/commandpair.go:76-81 | a nil transport gives the nil-transport error and an empty response; otherwise the result is the transport's answer |
| GpCommand.ToAPDU | goimpl/gpapdu/command.go:19-36 | more than 255 data octets give the error and the zero command; otherwise class, INS, P1, P2 and data are copied, with the class as its byte; no response data are expected and Le is 256 or 0 |
| GpCommandProps.ShortFormOnly | goimpl/gpapdu/command.go:19-36 | a converted command never uses extended lengths: Lc is at most one octet, and Le is `00` when data are expected and absent otherwise |
| GpCommandProps.BareHeader | goimpl/gpapdu/command.go:23-34 | a command with no data and no response expected serializes to its 4-octet header |
| GpCommandProps.Encoded | goimpl/gpapdu/command.go:19-36 | the full serialized form of a converted command |
| ApduStatus.RawStatus.Identify | goimpl/apdu/status.go:42-74 | every status word is classified, and the result's raw bytes are the input |
| ApduStatus.Status.Category | goimpl/apdu/status.go:84-199 | each implementation reports its own category, and no other |
| ApduStatus.IdentifyNormal | goimpl/apdu/status.go:88-103 | the result carries the input's raw bytes |
| ApduStatus.IdentifyWarning | goimpl/apdu/status.go:118-143 | the result carries the input's raw bytes |
| ApduStatusProps.CombinedBytes | goimpl/apdu/status.go:30-33 | the combined word has SW1 as its high octet and SW2 as its low octet |
| ApduStatusProps.InvalidFirstByte | goimpl/apdu/status.go:48-50 | a high SW1 nibble other than 6 and 9, or SW1 = `60`, gives an invalid status |
| ApduStatusProps.NormalStatuses | goimpl/apdu/status.go:51-103 | the category is normal iff the word is `9000` or SW1 is `61`; `9000` has no further qualification, and `61XX` has XX octets remaining |
| ApduStatusProps.CheckValues | goimpl/apdu/status.go:54-56 | the exact checking-error words are those with SW2 = 0 and SW1 one of `67 6B 6D 6E 6F` |
| ApduStatusProps.ProprietaryStatuses | goimpl/apdu/status.go:51-59 | proprietary iff SW1 is one of `67 6B 6D 6E 6F` with SW2 ≠ 0, or `90XX` with XX ≠ 0, or SW1 is in `91`-`9F` |
| ApduStatusProps.WarningStatuses | goimpl/apdu/status.go:118-143 | warning iff SW1 is `63` or it is `62` with SW2 neither `01` nor above `81`; for `62`, SW2 `00`, `02`-`80` and `81` map to their flags; `63` marks memory as changed |
| ApduStatusProps.NoErrorCategories | goimpl/apdu/status.go:157-179 | no status word is ever classified as an execution error or a checking error |
| ApduStatusProps.IdentifyCategories | goimpl/apdu/status.go:42-74 | a word is invalid iff it falls in none of the normal, warning and proprietary cases |
| ApduStatusProps.ExampleStatuses | goimpl/apdu/status.go:42-143 | concrete status words in each category |
| ApduErrors.NewError | goimpl/apdu/errors.go:35-39 | the code is the big-endian value of the two octets |
| ApduErrors.Error.Error | goimpl/apdu/errors.go:42-44 | the error text is the string form |
| ApduErrors.Error.String | goimpl/apdu/errors.go:47-70 | the text starts with "APDU General Error: " iff the code is one of the 8 known ones, and with "Unknown APDU Error: " otherwise; an unknown code is followed by exactly 4 hex digits that read back as the code; the placeholder is never returned |
| ApduErrors.Hex4 | goimpl/apdu/errors.go:67 | `%04X`: four characters, each an upper-case hex digit |
| ApduErrors.HexRoundTrip | goimpl/apdu/errors.go:67 | the four hex digits read back as the 16-bit value |
| ApduErrorsProps.KnownMessages | goimpl/apdu/errors.go:8-74 | each of the 8 known codes gives the prefix followed by its own message |
| ApduErrorsProps.ExampleUnknown | goimpl/apdu/errors_test.go:18-28 | 0 gives "Unknown APDU Error: 0000", and 0xFFFF gives "Unknown APDU Error: FFFF" |
| ApduErrorsProps.MessageLengthsDistinct | goimpl/apdu/errors.go:18-25 | the 8 known messages all differ in length |
| ApduErrorsProps.StringInjective | goimpl/apdu/errors.go:47-70 | different codes give different texts |
| ApduErrorsProps.NewErrorRoundTrip | goimpl/apdu/errors.go:35-39 | `NewError` over an error's big-endian octets gives the error back |
| ApduInstructions.InstructionSetBERTLV | goimpl/apdu/instructions.go:90-92 | b1 is set, every other bit is that of the instruction, and an instruction with b1 already set is unchanged |
| ApduInstructions.SetBERTLVIdempotent | goimpl/apdu/instructions.go:90-92 | applying it twice is applying it once |
| ApduInstructions.ExampleReadBinary | goimpl/apdu/instructions.go:60-92 | READ BINARY `B0` becomes `B1`, and READ RECORD(S) `B2` becomes `B3` |
| GpPrivileges.FirstPrivileges.ToByte | goimpl/gpapdu/privileges.go:58-82 | Security Domain is set iff it or any privilege implying it is; DAP Verification is set iff it or Mandated DAP Verification is; every other flag sets exactly its own bit |
| GpPrivileges.SecondPrivileges.ToByte | goimpl/gpapdu/privileges.go:83-107 | each flag sets exactly its own bit of the second byte |
| GpPrivileges.ThirdPrivileges.ToByte | goimpl/gpapdu/privileges.go:108-132 | each flag sets exactly its own bit of the third byte |
| GpPrivileges.Privileges.ToBytes | goimpl/gpapdu/privileges.go:56-134 | three bytes, whose implied bits are set exactly when the closed flags hold |
| GpPrivileges.Privileges.Close | goimpl/gpapdu/privileges.go:31-53 | the implied flags added give flags that obey the implications |
| GpPrivileges.PrivilegesFromBytes | goimpl/gpapdu/privileges.go:137-218 | the result obeys the implications; Security Domain and DAP Verification are decoded from their own bits and from the bits that imply them |
| GpPrivileges.CloseBytes | goimpl/gpapdu/privileges.go:56-218 | closing leaves the second and third bytes, and the low six bits of the first, unchanged |
| GpPrivilegesProps.PrivilegesRoundTrip | goimpl/gpapdu/privileges.go:56-218 | decoding the encoding gives the flags closed under the implications; it is the identity exactly on closed flags |
| GpPrivilegesProps.SecondRoundTrip | goimpl/gpapdu/privileges.go:83-193 | the second byte decodes back to its flags |
| GpPrivilegesProps.ThirdRoundTrip | goimpl/gpapdu/privileges.go:108-217 | the third byte decodes back to its flags |
| GpPrivilegesProps.BytesRoundTrip | goimpl/gpapdu/privileges.go:56-218 | encoding the decoded bytes gives the bytes with the implied bits ORed in; it is the identity exactly on closed bytes |
| GpPrivilegesProps.RoundTripIdempotent | goimpl/gpapdu/privileges.go:56-218 | the bytes round trip is idempotent |
| GpPrivilegesProps.CloseIdempotent | goimpl/gpapdu/privileges.go:31-53 | closing twice is closing once, and closing is the identity exactly on closed flags |
| GpPrivilegesProps.ExamplePrivileges | goimpl/gpapdu/privileges.go:56-218 | Mandated DAP Verification alone sets `C1`; Authorized Management alone adds `80` to the first byte |
| Scp03Config.Configuration.ToByte | goimpl/scp03/config.go:26-41 | only bits in `71` are set, and `40` only together with `20` |
| Scp03Config.ParseConfiguration | goimpl/scp03/config.go:12-23 | S8 mode iff `01` is clear; pseudo-random challenge iff `10` is set; no R-MAC encryption iff `20` is clear, which also forces no R-encryption; with `20` set, no R-encryption iff `40` is clear |
| Scp03Config.ParseToByte | goimpl/scp03/config.go:12-41 | parsing the byte of a consistent configuration gives it back |
| Scp03Config.ToByteParse | goimpl/scp03/config.go:12-41 | the byte of a parsed byte is the input masked by `71` when `20` is set, or by `11` otherwise |
| GpConfirmation.ReceiptPrefix | goimpl/gpapdu/confirmation.go:25-31 | a first octet with b8 clear is the receipt length and the receipt starts at 1; otherwise the second octet is the length and the receipt starts at 2 |
| GpConfirmation.ConfirmationFromResponse | goimpl/gpapdu/confirmation.go:19-46 | always returns an error; the result is what `Decoded` gives on the response data |
| GpConfirmationProps.TooShort | goimpl/gpapdu/confirmation.go:20-24 | fewer than 6 octets give the error and the zero result |
| GpConfirmationProps.ReceiptInBounds | goimpl/gpapdu/confirmation.go:32-45 | the parse gets past the bounds check iff the receipt is empty or start + length + 5 octets are present; the receipt is then exactly that slice, and the counter octet is in bounds |
| GpConfirmationProps.ReceiptRoundTrip | goimpl/gpapdu/confirmation.go:25-40 | a receipt of up to 255 octets behind its length prefix, with at least 5 octets after it, is parsed back exactly |
| LifecycleApplication.ValidCustomStates | goimpl/lifcecycle/application.go:16-20 | a state is a valid custom state iff its low three bits are set and b8 is clear, that is iff it is one of the 16 values `07`, `0F`, …, `7F` |
| LifecycleApplication.ValidStates | goimpl/lifcecycle/application.go:16-20 | the list of valid custom states has 16 strictly increasing entries |
| LifecycleApplication.ExampleStates | goimpl/lifcecycle/application.go:8-20 | SELECTABLE is a valid custom state; LOCKED, INSTALLED and any value with b8 set are not |

## Left out

- I/O failures of foreign streams. Streams are a byte sequence read by position, as with `bytes.Reader`, and a writer that takes every octet. The short-write and write-error paths of `Tag.Write` and `Writer.Write` therefore cannot arise.
- The `Transport` implementations and their mutex wrapper: I/O and concurrency. `Send` takes the transport as an optional function.
- ApduCommand.Command.ToBytes: `|data| > 65536` makes the source panic when it builds the Lc field. The model requires at most 65536 data octets instead of modelling the panic.
- GpConfirmation.ConfirmationFromResponse: the confirmation counter, the SD unique data, the token identifier and the digest are not decoded. The source stops after the receipt with "not implemented".
- The text of Go errors other than `apdu.Error`: errors are variants. Some wrapped messages in the source wrap a nil error; this is not modelled.
- ApduStatus.IdentifyExecError: its switch has no cases, so it always gives an invalid status. The fields of `StatusExecError` are never produced, and its contract states only what `NoErrorCategories` proves.
- ApduStatus.IdentifyCheckError: the same as `IdentifyExecError`.
- `goimpl/apdu/command.go`, a second `Command` whose `ToBytes` returns nil. It is not part of this model.
- The instruction constants of `goimpl/apdu/instructions.go` beyond five: the list is data only. The model declares `InstructionReadBinary`, `InstructionReadRecordS`, `InstructionSelect`, `InstructionUpdateBinary` and `InstructionPutData`; only the first two appear in a lemma, `ExampleReadBinary`.
- BerObject.Reader.ReadValueOctets: only the bound every Go target shares is modelled. A length above 2^63-1 panics in `make`; a smaller length is allocated. The runtime's lower per-platform limit (about 2^48 octets on 64-bit targets, 2^31-1 on 32-bit ones) and running out of memory are not modelled.
- BerObject.Reader.Read: the same idealised allocation, through `ReadValueOctets`.
- BerObject.Reader.ReadWithoutTag: the same idealised allocation, through `ReadValueOctets`.
- BerObjectProps.DecodeObjectShape: a length within 2^63-1 that the platform cannot allocate still yields a full value here.
- BerObjectProps.ReadWritten: its 2^56 to 2^63-1 case assumes the reader can allocate the value. On a real platform such a value fails to allocate.
- BerObjectProps.ReadWrittenPadded: the same assumption for every value above the platform's allocation limit.
- The unused `BigNumber` field of `Tag`. Numbers above 64 bits give the "not implemented" error, as in the source.
- Functions that tests call but the source does not define (`TagFromBytes`, `TagFromUint`, `ClassFromByte`).

## Findings

| source | as written | input that shows it | evidently intended | confidence | as-written member | corrected member |
|---|---|---|---|---|---|---|
| goimpl/bertlv/length.go:42 | `binary.BigEndian.Uint64` is applied to the 1 to 7 content octets of a long-form length, and it panics unless given 8 | `81 80`, which `LengthToBytes(128)` itself emits | decode to 128 by reading the content octets as a big-endian number, so that every encoded length reads back | not executed | BerLength.DecodeLength (the panic outcome), with BerLengthProps.ExampleLongLengthRejected and BerObjectProps.ReadWrittenPanics | BerLength.DecodeLengthPadded, with BerLengthProps.DecodeLengthPaddedOctets and BerObjectProps.ReadWrittenPadded |
