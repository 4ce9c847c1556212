/** What the object reader and writer promise together: the reader takes back
    what the writer emits for every value whose length the length decoder
    handles, and the examples of the package's tests. */
module BerObjectProps {
  import opened Octets
  import opened BerTag
  import opened BerTagProps
  import opened BerLength
  import opened BerLengthProps
  import opened BerObject

  /** Read over Write's output, whatever follows it: tag and value come back,
      with Length the value's length, for every value shorter than 128 octets
      or of 2^56 to 2^63 - 1 octets; an empty value needs further input, since
      reading zero value octets from an exhausted stream reports io.EOF. */
  lemma ReadWritten(obj: Object, rest: seq<byte>)
    requires ValidClass(obj.tag.cls) && |obj.value| <= MaxSliceLength
    requires |obj.value| < 128 || |obj.value| >= 0x0100_0000_0000_0000
    requires obj.value != [] || rest != []
    ensures DecodeObject(EncodeObject(obj) + rest)
         == ObjectRead(|EncodeObject(obj)|, Object(obj.tag, |obj.value|, obj.value), None)
  {
    var len := LengthOctets(|obj.value|);
    EncodeParts(obj, len, rest);
    ReadIsTagThenUntagged(obj.tag, len + obj.value + rest);
    DecodeLengthOctets(|obj.value|, obj.value + rest);
    ReadAfterLength(len, |obj.value|, obj.value, rest);
  }

  /** For lengths 128 to 2^56 - 1 the read fails where the length octets
      reach binary.BigEndian.Uint64. */
  lemma ReadWrittenPanics(obj: Object, rest: seq<byte>)
    requires ValidClass(obj.tag.cls) && 128 <= |obj.value| < 0x0100_0000_0000_0000
    ensures DecodeObject(EncodeObject(obj) + rest).err == Some(LengthFailed(Uint64Panic))
  {
    var len := LengthOctets(|obj.value|);
    EncodeParts(obj, len, rest);
    ReadIsTagThenUntagged(obj.tag, len + obj.value + rest);
    UntaggedPanics(obj.value, rest);
  }

  /** The untagged read of a length 128 to 2^56 - 1 and its value fails. */
  lemma UntaggedPanics(v: seq<byte>, rest: seq<byte>)
    requires 128 <= |v| < 0x0100_0000_0000_0000
    ensures DecodeUntagged(LengthOctets(|v|) + v + rest).err == Some(LengthFailed(Uint64Panic))
  {
    var s := LengthOctets(|v|) + v + rest;
    assert s == LengthOctets(|v|) + (v + rest);
    DecodeLongOctets(|v|, v + rest);
    UntaggedLengthError(s);
  }

  /** Reader.Read with the length decoder that pads a long-form length of
      fewer than eight octets instead of panicking: what the reader evidently
      intends. */
  function DecodeObjectPadded(s: seq<byte>): (r: ObjectRead)
    ensures r.bytesRead <= |s|
    ensures DecodeTag(s).err.Some? ==> r == DecodeObject(s)
  {
    var t := DecodeTag(s);
    DecodeTagBounds(s);
    if t.err.Some? then ObjectRead(t.readTotal, ZeroObject, Some(TagFailed(t.err.value)))
    else
      var rest := s[t.readTotal..];
      ValueStep(t.readTotal, t.tag, rest, DecodeLengthPadded(rest))
  }

  /** With the padding decoder, Read takes back whatever Write emits, for
      every value length: tag and value come back, with Length the value's
      length. */
  lemma ReadWrittenPadded(obj: Object, rest: seq<byte>)
    requires ValidClass(obj.tag.cls) && |obj.value| <= MaxSliceLength
    requires obj.value != [] || rest != []
    ensures DecodeObjectPadded(EncodeObject(obj) + rest)
         == ObjectRead(|EncodeObject(obj)|, Object(obj.tag, |obj.value|, obj.value), None)
  {
    var len := LengthOctets(|obj.value|);
    EncodeParts(obj, len, rest);
    PaddedAfterTag(obj.tag, len + obj.value + rest);
    PaddedValue(|TagBytes(obj.tag)|, obj.tag, obj.value, rest);
  }

  /** The padded read after the tag octets of t. */
  lemma PaddedAfterTag(t: Tag, s: seq<byte>)
    requires ValidClass(t.cls)
    ensures DecodeObjectPadded(TagBytes(t) + s) == ValueStep(|TagBytes(t)|, t, s, DecodeLengthPadded(s))
  {
    DecodeTagBytes(t, s);
    assert (TagBytes(t) + s)[|TagBytes(t)|..] == s;
  }

  /** The padded length and value steps over Write's length octets and value. */
  lemma PaddedValue(consumed: nat, t: Tag, v: seq<byte>, rest: seq<byte>)
    requires |v| <= MaxSliceLength && (v != [] || rest != [])
    ensures ValueStep(consumed, t, LengthOctets(|v|) + v + rest, DecodeLengthPadded(LengthOctets(|v|) + v + rest))
         == ObjectRead(consumed + |LengthOctets(|v|)| + |v|, Object(t, |v|, v), None)
  {
    var len := LengthOctets(|v|);
    assert len + v + rest == len + (v + rest);
    DecodeLengthPaddedOctets(|v|, v + rest);
    assert (len + (v + rest))[|len|..] == v + rest;
    assert (v + rest)[..|v|] == v;
  }

  /** A length error is the untagged read's error. */
  lemma UntaggedLengthError(s: seq<byte>)
    requires DecodeLength(s).err.Some?
    ensures DecodeUntagged(s).err == Some(LengthFailed(DecodeLength(s).err.value))
  {
  }

  lemma EncodeParts(obj: Object, len: seq<byte>, rest: seq<byte>)
    requires ValidClass(obj.tag.cls) && |obj.value| <= MaxSliceLength && len == LengthOctets(|obj.value|)
    ensures EncodeObject(obj) + rest == TagBytes(obj.tag) + (len + obj.value + rest)
    ensures |EncodeObject(obj)| == |TagBytes(obj.tag)| + |len| + |obj.value|
  {
  }

  /** The value step after length octets len that decode to the value's length. */
  lemma ReadAfterLength(len: seq<byte>, length: Length, v: seq<byte>, rest: seq<byte>)
    requires DecodeLength(len + (v + rest)) == LengthRead(|len|, length, None) && length == |v| <= MaxSliceLength
    requires v != [] || rest != []
    ensures DecodeUntagged(len + v + rest) == ObjectRead(|len| + |v|, Object(ZeroTag, length, v), None)
  {
    assert len + v + rest == len + (v + rest);
    assert (len + (v + rest))[|len|..] == v + rest;
    assert (v + rest)[..|v|] == v;
  }

  /** An object with an empty value, written on its own, does not read back. */
  lemma ReadWrittenEmpty(t: Tag, length: Length)
    requires ValidClass(t.cls)
    ensures EncodeObject(Object(t, length, [])) == TagBytes(t) + [0x00]
    ensures DecodeObject(EncodeObject(Object(t, length, [])))
         == ObjectRead(|TagBytes(t)| + 1, Object(t, 0, []), Some(ValueFailed))
  {
    var s := TagBytes(t) + [0x00];
    DecodeTagBytes(t, [0x00]);
    assert s[|TagBytes(t)|..] == [0x00];
  }

  /** The encoding ignores the Length field. */
  lemma EncodeIgnoresLength(t: Tag, a: Length, b: Length, v: seq<byte>)
    requires ValidClass(t.cls) && |v| <= MaxSliceLength
    ensures EncodeObject(Object(t, a, v)) == EncodeObject(Object(t, b, v))
  {
  }

  /** Read is ReadWithoutTag after the tag: the tag is the decoded one and
      its octets are counted in. */
  lemma ReadIsTagThenUntagged(t: Tag, s: seq<byte>)
    requires ValidClass(t.cls)
    ensures DecodeObject(TagBytes(t) + s)
         == var r := DecodeUntagged(s);
            ObjectRead(|TagBytes(t)| + r.bytesRead, r.obj.(tag := t), r.err)
  {
    DecodeTagBytes(t, s);
    assert (TagBytes(t) + s)[|TagBytes(t)|..] == s;
  }

  /** Whatever the input: a tag error leaves the zero object; a length error
      leaves the tag and nothing else; a length no slice can have panics with
      no value; otherwise Value holds exactly Length octets, the value octets
      present followed by zeros. */
  lemma DecodeObjectShape(s: seq<byte>)
    ensures DecodeTag(s).err.Some? ==> DecodeObject(s).obj == ZeroObject
    ensures DecodeTag(s).err.None? && DecodeObject(s).err.Some? && DecodeObject(s).err.value.LengthFailed? ==>
              DecodeObject(s).obj == Object(DecodeTag(s).tag, 0, [])
    ensures DecodeObject(s).err == Some(AllocationPanic) ==>
              DecodeObject(s).obj.length > MaxSliceLength && DecodeObject(s).obj.value == []
    ensures DecodeObject(s).err.None? || DecodeObject(s).err == Some(ValueFailed) ==>
              DecodeObject(s).obj.length <= MaxSliceLength && |DecodeObject(s).obj.value| == DecodeObject(s).obj.length
  {
    DecodeTagBounds(s);
  }

  /** The value buffer cannot be made exactly when the decoded length exceeds
      the longest slice. */
  lemma UntaggedAllocationPanics(s: seq<byte>)
    ensures DecodeUntagged(s).err == Some(AllocationPanic)
        <==> DecodeLength(s).err.None? && DecodeLength(s).length > MaxSliceLength
  {
  }

  lemma ExampleBitString()
    ensures DecodeObject([0x03, 0x07, 0x04, 0x0A, 0x3B, 0x5F, 0x29, 0x1C, 0xD0])
         == ObjectRead(9, Object(Tag(TagClassUniversal, false, 3), 7, [0x04, 0x0A, 0x3B, 0x5F, 0x29, 0x1C, 0xD0]), None)
    ensures EncodeObject(Object(Tag(TagClassUniversal, false, 3), 7000, [0x04, 0x0A, 0x3B, 0x5F, 0x29, 0x1C, 0xD0]))
         == [0x03, 0x07, 0x04, 0x0A, 0x3B, 0x5F, 0x29, 0x1C, 0xD0]
    ensures EncodeObject(Object(Tag(TagClassUniversal, false, 3), 7000, [])) == [0x03, 0x00]
  {
    var v: seq<byte> := [0x04, 0x0A, 0x3B, 0x5F, 0x29, 0x1C, 0xD0];
    ReadWritten(Object(Tag(TagClassUniversal, false, 3), 7000, v), []);
  }

  /** An eight-octet length of 2^63 is out of range for make. */
  lemma ExampleAllocationPanic()
    ensures DecodeObject([0x03, 0x88, 0x80, 0, 0, 0, 0, 0, 0, 0, 0x01])
         == ObjectRead(10, Object(Tag(TagClassUniversal, false, 3), 0x8000_0000_0000_0000, []), Some(AllocationPanic))
  {
    var s: seq<byte> := [0x03, 0x88, 0x80, 0, 0, 0, 0, 0, 0, 0, 0x01];
    var raw: seq<byte> := [0x80, 0, 0, 0, 0, 0, 0, 0];
    assert BigEndianValue(raw) == 0x8000_0000_0000_0000 by {
      assert raw == [0x80] + Zeros(7);
      BigEndianValueCons(0x80, Zeros(7));
      ZerosValue(7);
      Pow256Bounds();
    }
    assert s[1..] == [0x88, 0x80, 0, 0, 0, 0, 0, 0, 0, 0x01];
    assert s[1..][1..9] == raw;
    DecodeLengthAccepts(s[1..]);
  }

  /** A value shorter than its length is padded with zeros and is no error. */
  lemma ExampleShortValue()
    ensures DecodeObject([0x04, 0x03, 0xAA]) == ObjectRead(3, Object(Tag(TagClassUniversal, false, 4), 3, [0xAA, 0, 0]), None)
  {
    var s: seq<byte> := [0x04, 0x03, 0xAA];
    assert s[1..] == [0x03, 0xAA];
    assert s[1..][1..] == [0xAA];
  }
}
