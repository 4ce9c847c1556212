/** One BER-TLV obj at a time over a byte stream: Reader.Read decodes tag,
    length and value in turn; Reader.ReadWithoutTag skips the tag step;
    Writer.Write emits the identifier octets, the length octets of the value's
    own length and the value. */
module BerObject {
  import opened Octets
  import opened Streams
  import opened BerTag
  import opened BerTagProps
  import opened BerLength

  /** Object. Length is the decoded length: a fresh Value buffer of exactly
      that many octets is read into, whatever the input holds, when a slice
      can be that long. */
  datatype Object = Object(tag: Tag, length: Length, value: seq<byte>)

  /** The zero value of Tag and of Object in the source. */
  const ZeroTag := Tag(TagClassUniversal, false, 0)
  const ZeroObject := Object(ZeroTag, 0, [])

  datatype ReadError =
    | TagFailed(tagErr: TagError)           // "error getting tag"
    | LengthFailed(lengthErr: LengthError)  // "error reading length"
    | ValueFailed                           // "error reading value": no input was left
    | AllocationPanic                       // make([]byte, length) panics: "len out of range"

  /** The largest length a Go slice can have on any target, the largest int
      of a 64-bit target: make panics on a longer one. */
  const MaxSliceLength: nat := 0x7FFF_FFFF_FFFF_FFFF

  /** What Read and ReadWithoutTag return: octets consumed, the obj, the error. */
  datatype ObjectRead = ObjectRead(bytesRead: nat, obj: Object, err: Option<ReadError>)

  /** Length and value steps over the input s, after consumed octets and with
      tag already decoded. The value is read into a zero-filled buffer of the
      decoded length: as much of it as the input holds is filled; the read
      fails only when nothing at all is left, even for length zero. A length
      no Go slice can have makes the allocation panic, after the length
      octets and with Length already set. */
  function ReadValue(consumed: nat, tag: Tag, s: seq<byte>): (r: ObjectRead)
    ensures r.bytesRead <= consumed + |s|
  {
    ValueStep(consumed, tag, s, DecodeLength(s))
  }

  /** ReadValue once the length decoder has returned l on s. */
  function ValueStep(consumed: nat, tag: Tag, s: seq<byte>, l: LengthRead): (r: ObjectRead)
    requires l.bytesRead <= |s|
    ensures r.bytesRead <= consumed + |s|
  {
    if l.err.Some? then ObjectRead(consumed + l.bytesRead, Object(tag, 0, []), Some(LengthFailed(l.err.value)))
    else if l.length > MaxSliceLength then ObjectRead(consumed + l.bytesRead, Object(tag, l.length, []), Some(AllocationPanic))
    else
      var rest := s[l.bytesRead..];
      var n := Min(l.length, |rest|);
      ObjectRead(consumed + l.bytesRead + n, Object(tag, l.length, rest[..n] + Zeros(l.length - n)),
                 if rest == [] then Some(ValueFailed) else None)
  }

  /** What Reader.Read returns when the remaining input is s. */
  function DecodeObject(s: seq<byte>): (r: ObjectRead)
    ensures r.bytesRead <= |s|
  {
    var t := DecodeTag(s);
    DecodeTagBounds(s);
    if t.err.Some? then ObjectRead(t.readTotal, ZeroObject, Some(TagFailed(t.err.value)))
    else ReadValue(t.readTotal, t.tag, s[t.readTotal..])
  }

  /** DecodeObject's two steps, the tag and the rest. */
  lemma DecodeObjectSteps(s: seq<byte>)
    ensures DecodeTag(s).err.Some? ==>
              DecodeObject(s) == ObjectRead(DecodeTag(s).readTotal, ZeroObject, Some(TagFailed(DecodeTag(s).err.value)))
    ensures DecodeTag(s).err.None? ==>
              DecodeTag(s).readTotal <= |s|
              && DecodeObject(s) == ReadValue(DecodeTag(s).readTotal, DecodeTag(s).tag, s[DecodeTag(s).readTotal..])
  {
    DecodeTagBounds(s);
  }

  /** What Reader.ReadWithoutTag returns when the remaining input is s. */
  function DecodeUntagged(s: seq<byte>): (r: ObjectRead)
    ensures r.bytesRead <= |s|
  {
    ReadValue(0, ZeroTag, s)
  }

  class Reader {
    const data: ByteReader

    constructor (data: ByteReader)
      ensures this.data == data
    {
      this.data := data;
    }

    /** Reader.Read: the object the stream starts with; the stream advances by
        exactly the octets reported read. */
    method Read() returns (bytesRead: nat, obj: Object, err: Option<ReadError>)
      requires data.Valid()
      modifies data
      ensures data.Valid() && data.pos == old(data.pos) + bytesRead
      ensures ObjectRead(bytesRead, obj, err) == DecodeObject(old(data.Remaining()))
    {
      ghost var s := data.Remaining();
      DecodeObjectSteps(s);
      var tagBytes, tag, tagErr := TagFromReader(data);
      if tagErr.Some? {
        return tagBytes, ZeroObject, Some(TagFailed(tagErr.value));
      }
      assert data.Remaining() == s[tagBytes..];
      bytesRead, obj, err := ReadLengthAndValue(tagBytes, tag);
    }

    /** Reader.ReadWithoutTag: as Read, with the tag step left out and the tag
        left zero. */
    method ReadWithoutTag() returns (bytesRead: nat, obj: Object, err: Option<ReadError>)
      requires data.Valid()
      modifies data
      ensures data.Valid() && data.pos == old(data.pos) + bytesRead
      ensures ObjectRead(bytesRead, obj, err) == DecodeUntagged(old(data.Remaining()))
    {
      bytesRead, obj, err := ReadLengthAndValue(0, ZeroTag);
    }

    /** The length and value steps, which Read and ReadWithoutTag both take,
        after bytesRead octets of tag. */
    method ReadLengthAndValue(tagBytes: nat, tag: Tag) returns (bytesRead: nat, obj: Object, err: Option<ReadError>)
      requires data.Valid()
      modifies data
      ensures data.Valid() && data.pos + tagBytes == old(data.pos) + bytesRead
      ensures ObjectRead(bytesRead, obj, err) == ReadValue(tagBytes, tag, old(data.Remaining()))
    {
      ghost var s := data.Remaining();
      bytesRead := tagBytes;
      obj := ZeroObject.(tag := tag);
      var lengthBytes, length, lengthErr := LengthFromReader(data);
      bytesRead := bytesRead + lengthBytes;
      if lengthErr.Some? {
        err := Some(LengthFailed(lengthErr.value));
        return;
      }
      obj := obj.(length := length);
      assert data.Remaining() == s[lengthBytes..];
      var valueBytes, value, valueErr := ReadValueOctets(length);
      bytesRead := bytesRead + valueBytes;
      ReadValueIs(tagBytes, tag, s, lengthBytes, length, valueBytes, value, valueErr);
      obj := obj.(value := value);
      err := valueErr;
    }

    /** The value step shared by Read and ReadWithoutTag: a fresh zero-filled
        buffer of the decoded length, read into once; a length no slice can
        have panics in the allocation and reads nothing. */
    method ReadValueOctets(length: Length) returns (valueBytes: nat, value: seq<byte>, valueErr: Option<ReadError>)
      requires data.Valid()
      modifies data
      ensures data.Valid() && data.pos == old(data.pos) + valueBytes
      ensures length > MaxSliceLength ==> valueBytes == 0 && value == [] && valueErr == Some(AllocationPanic)
      ensures length <= MaxSliceLength ==>
                valueBytes == Min(length, |old(data.Remaining())|)
                && value == old(data.Remaining())[..valueBytes] + Zeros(length - valueBytes)
                && valueErr == (if old(data.Remaining()) == [] then Some(ValueFailed) else None)
    {
      if length > MaxSliceLength {
        return 0, [], Some(AllocationPanic);
      }
      var buf := new byte[length](_ => 0);
      ghost var before, init := data.pos, buf[..];
      var eof;
      valueBytes, eof := data.Read(buf);
      ValueFilled(buf[..], valueBytes, data.data[before..data.pos], init);
      value := buf[..];
      valueErr := if eof then Some(ValueFailed) else None;
    }
  }

  /** The value step of ReadValue, from what the stream reads report. */
  lemma ReadValueIs(consumed: nat, tag: Tag, s: seq<byte>, lengthBytes: nat, length: Length, valueBytes: nat,
                    value: seq<byte>, valueErr: Option<ReadError>)
    requires DecodeLength(s) == LengthRead(lengthBytes, length, None)
    requires length > MaxSliceLength ==> valueBytes == 0 && value == [] && valueErr == Some(AllocationPanic)
    requires length <= MaxSliceLength ==>
               valueBytes == Min(length, |s| - lengthBytes)
               && value == s[lengthBytes..][..valueBytes] + Zeros(length - valueBytes)
               && valueErr == (if lengthBytes == |s| then Some(ValueFailed) else None)
    ensures ReadValue(consumed, tag, s)
         == ObjectRead(consumed + lengthBytes + valueBytes, Object(tag, length, value), valueErr)
  {
  }

  /** A zero-filled buffer after a read of n octets got. */
  lemma ValueFilled(v: seq<byte>, n: nat, got: seq<byte>, init: seq<byte>)
    requires n <= |v| == |init| && v[..n] == got && v[n..] == init[n..]
    requires forall k :: 0 <= k < |init| ==> init[k] == 0
    ensures v == got + Zeros(|v| - n)
  {
    assert v == v[..n] + v[n..];
  }

  /** NewReader: fails on a missing stream. */
  method NewReader(data: ByteReader?) returns (r: Reader?, ok: bool)
    ensures ok <==> data != null
    ensures ok ==> r != null && fresh(r) && r.data == data
    ensures !ok ==> r == null
  {
    if data == null {
      return null, false;
    }
    r := new Reader(data);
    ok := true;
  }

  /** NewBytesReader: a Reader over a fresh stream of the given octets. */
  method NewBytesReader(data: seq<byte>) returns (r: Reader)
    ensures fresh(r) && fresh(r.data) && r.data.Valid() && r.data.Remaining() == data
  {
    var stream := new ByteReader(data);
    r := new Reader(stream);
  }

  // ---------------------------------------------------------------------------
  // Writing

  datatype WriteError = TagConversion(tagErr: TagError)  // "failed to convert tag to bytes"

  /** The octets Writer.Write emits for obj: its Length field plays no part. */
  function EncodeObject(obj: Object): seq<byte>
    requires ValidClass(obj.tag.cls) && |obj.value| <= MaxSliceLength
  {
    TagBytes(obj.tag) + LengthOctets(|obj.value|) + obj.value
  }

  class Writer {
    const output: ByteWriter

    constructor (output: ByteWriter)
      ensures this.output == output
    {
      this.output := output;
    }

    /** Writer.Write: tag, length and value appended to the output, or
        nothing at all for a tag with an invalid class. The requires is the
        most octets a Go slice can hold; LengthToBytes' uint64 parameter
        would admit up to MaxLength. */
    method Write(obj: Object) returns (bytesWritten: nat, err: Option<WriteError>)
      requires |obj.value| <= MaxSliceLength
      modifies output
      ensures ValidClass(obj.tag.cls) ==>
                err == None && output.written == old(output.written) + EncodeObject(obj)
                && bytesWritten == |TagBytes(obj.tag)| + |LengthOctets(|obj.value|)| + |obj.value|
      ensures !ValidClass(obj.tag.cls) ==>
                err == Some(TagConversion(InvalidClass)) && output.written == old(output.written) && bytesWritten == 0
    {
      var tagBytes, tagErr := obj.tag.ToBytes();
      if tagErr.Some? {
        return 0, Some(TagConversion(tagErr.value));
      }
      bytesWritten := output.Write(tagBytes);
      // the caller's Length is overridden by the value's own length
      var o := obj.(length := |obj.value|);
      var lengthOctets := LengthToBytes(o.length);
      var lengthWritten := output.Write(lengthOctets);
      bytesWritten := bytesWritten + lengthWritten;
      var valueWritten := output.Write(o.value);
      bytesWritten := bytesWritten + valueWritten;
      AppendThree(old(output.written), tagBytes, lengthOctets, obj.value);
      err := None;
    }
  }

  lemma AppendThree(w: seq<byte>, a: seq<byte>, b: seq<byte>, c: seq<byte>)
    ensures w + a + b + c == w + (a + b + c)
  {
  }

  /** NewWriter: fails on a missing output. */
  method NewWriter(output: ByteWriter?) returns (w: Writer?, ok: bool)
    ensures ok <==> output != null
    ensures ok ==> w != null && fresh(w) && w.output == output
    ensures !ok ==> w == null
  {
    if output == null {
      return null, false;
    }
    w := new Writer(output);
    ok := true;
  }
}
