/** BER-TLV length octets (ITU-T X.690 section 8.1.3) as the bertlv package
    encodes and decodes them: the short form, one octet below 128, and the long
    form, 0x80 | n followed by n big-endian octets with no leading zero octet.
    The indefinite form (a lone 0x80) is rejected. */
module BerLength {
  import opened Octets
  import opened Streams

  datatype LengthError =
    | NoInput              // the first octet could not be read
    | Indefinite           // the first octet is the indefinite marker 0x80
    | TooManyOctets        // the long form announces more than 8 octets
    | OctetsMissing        // nothing was left to read the long-form octets from
    | OctetsShort          // fewer long-form octets were left than announced
    | Uint64Panic          // binary.BigEndian.Uint64 on fewer than 8 octets

  /** A Go uint64 length as a number: lengths are only counted and compared. */
  type Length = n: nat | n <= MaxLength

  const MaxLength: nat := 0xFFFF_FFFF_FFFF_FFFF

  /** What LengthFromReader returns: octets consumed, the length, the error. */
  datatype LengthRead = LengthRead(bytesRead: nat, length: Length, err: Option<LengthError>)

  // ---------------------------------------------------------------------------
  // The encoding

  /** The number of zero octets at the front of raw. */
  function LeadingZeros(raw: seq<byte>): (z: nat)
    ensures z <= |raw|
    ensures forall k :: 0 <= k < z ==> raw[k] == 0
    ensures z < |raw| ==> raw[z] != 0
  {
    if raw == [] || raw[0] != 0 then 0 else 1 + LeadingZeros(raw[1..])
  }

  /** raw from its first nonzero octet on; all of raw when it has none, as
      the source's loop leaves it. */
  function Trimmed(raw: seq<byte>): seq<byte>
  {
    if LeadingZeros(raw) < |raw| then raw[LeadingZeros(raw)..] else raw
  }

  /** The big-endian octets of a length, leading zero octets removed. */
  function LongContent(length: Length): seq<byte>
  {
    Trimmed(BigEndian(length, 8))
  }

  /** The length octets the encoder emits. */
  function LengthOctets(length: Length): seq<byte>
  {
    if length < 128 then [length as byte]
    else [(|LongContent(length)| as byte) | B8] + LongContent(length)
  }

  /** LengthToBytes: the short form below 128; otherwise the 8-byte big-endian
      image with its leading zero octets trimmed, after the count octet. */
  method LengthToBytes(length: Length) returns (data: seq<byte>)
    ensures data == LengthOctets(length)
  {
    if length < 128 {
      return [length as byte];
    }
    var raw := BigEndian(length, 8);
    raw := TrimLeadingZeros(raw);
    data := [(|raw| as byte) | B8] + raw;
  }

  /** The trimming loop of LengthToBytes: stops at the first nonzero octet. */
  method TrimLeadingZeros(raw: seq<byte>) returns (trimmed: seq<byte>)
    ensures trimmed == Trimmed(raw)
  {
    trimmed := raw;
    var i := 0;
    while i < |raw|
      invariant 0 <= i <= |raw| && trimmed == raw
      invariant forall k :: 0 <= k < i ==> raw[k] == 0
    {
      if raw[i] != 0 {
        LeadingZerosAt(raw, i);
        trimmed := raw[i..];
        break;
      }
      i := i + 1;
    }
    if i == |raw| {
      LeadingZerosAt(raw, i);
    }
  }

  /** LeadingZeros counts exactly the zero octets before the first nonzero one. */
  lemma {:induction false} LeadingZerosAt(raw: seq<byte>, i: nat)
    requires i <= |raw| && (forall k :: 0 <= k < i ==> raw[k] == 0) && (i < |raw| ==> raw[i] != 0)
    ensures LeadingZeros(raw) == i
  {
    if i > 0 {
      assert raw[0] == 0;
      LeadingZerosAt(raw[1..], i - 1);
    }
  }

  /** A length of at least 128 has a nonzero octet in its image, so the
      trimming loop always stops at one. */
  lemma ContentNonZero(length: Length)
    requires length >= 128
    ensures LeadingZeros(BigEndian(length, 8)) < 8
  {
    var raw := BigEndian(length, 8);
    if LeadingZeros(raw) == 8 {
      assert raw == Zeros(8);
      BigEndianValueOf(length, 8);
      ZerosValue(8);
    }
  }

  // ---------------------------------------------------------------------------
  // The decoding

  /** What LengthFromReader returns when the remaining input is s. A long form
      takes the announced octets through binary.BigEndian.Uint64, which needs
      eight of them: with fewer the source panics, here the Uint64Panic error. */
  function DecodeLength(s: seq<byte>): (r: LengthRead)
    ensures r.bytesRead <= |s|
  {
    if s == [] then LengthRead(0, 0, Some(NoInput))
    else if s[0] == 0x80 then LengthRead(1, 0, Some(Indefinite))
    else if s[0] & B8 == 0 then LengthRead(1, (s[0] & 0x7F) as int, None)
    else
      var n := (s[0] & 0x7F) as nat;
      if n > 8 then LengthRead(1, 0, Some(TooManyOctets))
      else if |s| == 1 then LengthRead(1, 0, Some(OctetsMissing))
      else if |s| - 1 < n then LengthRead(|s|, 0, Some(OctetsShort))
      else if n < 8 then LengthRead(1 + n, 0, Some(Uint64Panic))
      else Pow256Bounds(); LengthRead(9, BigEndianValue(s[1..9]), None)
  }

  /** LengthFromReader: decodes one length from the stream. */
  method LengthFromReader(data: ByteReader) returns (bytesRead: nat, length: Length, err: Option<LengthError>)
    requires data.Valid()
    modifies data
    ensures data.Valid()
    ensures LengthRead(bytesRead, length, err) == DecodeLength(old(data.Remaining()))
    ensures data.pos == old(data.pos) + bytesRead
  {
    ghost var s := data.Remaining();
    length := 0;
    var dst := new byte[1](_ => 0);
    var eof;
    bytesRead, eof := data.Read(dst);
    if eof {
      return bytesRead, 0, Some(NoInput);
    }
    var firstByte := dst[0];
    assert firstByte == s[0] by {
      assert dst[..1][0] == data.data[old(data.pos)..data.pos][0];
    }
    if firstByte == 0x80 {
      return bytesRead, 0, Some(Indefinite);
    }
    var short := (firstByte & B8) == 0;
    if short {
      length := (firstByte & 0x7F) as int;
      return bytesRead, length, None;
    }
    var lengthLength := firstByte & 0x7F;
    if lengthLength > 8 {
      return bytesRead, 0, Some(TooManyOctets);
    }
    var lengthBytes := new byte[lengthLength as nat](_ => 0);
    var read, readErr := data.Read(lengthBytes);
    bytesRead := bytesRead + read;
    if readErr {
      err := Some(OctetsMissing);
    } else if read < lengthLength as nat {
      err := Some(OctetsShort);
    } else if lengthLength < 8 {
      // binary.BigEndian.Uint64 indexes lengthBytes[7]
      err := Some(Uint64Panic);
    } else {
      // binary.BigEndian.Uint64 reads the first eight octets
      assert lengthBytes[..8] == s[1..9];
      Pow256Bounds();
      length := BigEndianValue(lengthBytes[..8]);
      err := None;
    }
  }

  /** The decoder the long form evidently calls for: the announced octets,
      however few, taken as a big-endian number (zero-padded on the left to
      the eight octets binary.BigEndian.Uint64 reads). */
  function DecodeLengthPadded(s: seq<byte>): (r: LengthRead)
    ensures r.bytesRead <= |s|
  {
    var r := DecodeLength(s);
    if r.err == Some(Uint64Panic) then
      var n := (s[0] & 0x7F) as nat;
      Pow256Bounds();
      LengthRead(1 + n, BigEndianValue(Zeros(8 - n) + s[1..1 + n]), None)
    else r
  }
}
