/** What the length codec promises: the shape of the encoding, what the decoder
    makes of it, and the decoding of the long form as the source writes it
    against the decoding it evidently intends. */
module BerLengthProps {
  import opened Octets
  import opened BerLength

  /** The two forms of the encoding. A long form has 1 to 8 content octets,
      announced by the first octet, none of them a leading zero, holding the
      length big-endian. */
  lemma LengthOctetsShape(length: Length)
    ensures length < 128 ==> LengthOctets(length) == [length as byte]
    ensures length >= 128 ==>
      var r := LengthOctets(length);
      2 <= |r| <= 9 && r[0] == B8 | ((|r| - 1) as byte) && r[1] != 0 && BigEndianValue(r[1..]) == length
  {
    if length >= 128 {
      LongContentValue(length);
      assert LengthOctets(length)[1..] == LongContent(length);
    }
  }

  /** The encoder never starts with the indefinite marker, so it never emits
      the lone 0x80 either. */
  lemma NeverIndefinite(length: Length)
    ensures LengthOctets(length)[0] != 0x80
    ensures LengthOctets(length) != [0x80]
  {
    if length >= 128 {
      LongContentValue(length);
      CountOctet(|LongContent(length)|);
    }
  }

  /** The content octets, padded back to eight on the left, are the image of
      the length; they stand for the length themselves. */
  lemma LongContentValue(length: Length)
    requires length >= 128
    ensures 1 <= |LongContent(length)| <= 8 && LongContent(length)[0] != 0
    ensures Zeros(8 - |LongContent(length)|) + LongContent(length) == BigEndian(length, 8)
    ensures BigEndianValue(LongContent(length)) == length
  {
    ContentNonZero(length);
    var c := LongContent(length);
    PadTrimmed(BigEndian(length, 8));
    BigEndianValueOf(length, 8);
    BigEndianValueZeros(8 - |c|, c);
  }

  /** Trimming drops only zeros: putting them back gives the octets again. */
  lemma PadTrimmed(raw: seq<byte>)
    requires LeadingZeros(raw) < |raw|
    ensures 1 <= |Trimmed(raw)| && Trimmed(raw)[0] != 0
    ensures Zeros(|raw| - |Trimmed(raw)|) + Trimmed(raw) == raw
  {
    var z := LeadingZeros(raw);
    assert raw[..z] == Zeros(z);
    assert raw == raw[..z] + raw[z..];
  }

  /** All eight octets appear exactly when the top octet of the image is
      nonzero, that is, from 2^56 on. */
  lemma FullContent(length: Length)
    requires length >= 128
    ensures |LongContent(length)| == 8 <==> length >= 0x0100_0000_0000_0000
  {
    ContentNonZero(length);
    BigEndianValueOf(length, 8);
    TopOctetWeight(BigEndian(length, 8));
  }

  /** Eight octets stand for a number of at least 2^56 exactly when the first
      is nonzero. */
  lemma TopOctetWeight(raw: seq<byte>)
    requires |raw| == 8
    ensures raw[0] != 0 <==> BigEndianValue(raw) >= 0x0100_0000_0000_0000
  {
    assert raw == [raw[0]] + raw[1..];
    BigEndianValueCons(raw[0], raw[1..]);
    Pow256Bounds();
  }

  /** LengthFromReader over LengthToBytes, whatever follows: the length comes
      back only in the short form and in the 8-octet long form; every long
      form of 1 to 7 octets, lengths 128 to 2^56 - 1, reaches the
      binary.BigEndian.Uint64 panic. The octets consumed are always the
      encoding's. */
  lemma DecodeLengthOctets(length: Length, rest: seq<byte>)
    ensures DecodeLength(LengthOctets(length) + rest)
         == if length < 128 || length >= 0x0100_0000_0000_0000 then LengthRead(|LengthOctets(length)|, length, None)
            else LengthRead(|LengthOctets(length)|, 0, Some(Uint64Panic))
  {
    if length >= 128 {
      DecodeLongOctets(length, rest);
    } else {
      ShortOctet(length);
    }
  }

  lemma ShortOctet(length: Length)
    requires length < 128
    ensures (length as byte) & B8 == 0 && (length as byte) != 0x80 && ((length as byte) & 0x7F) as int == length
  {
    ByteValue(length);
    LowOctet(length as byte);
  }

  lemma LowOctet(b: byte)
    requires b as int < 128
    ensures b & B8 == 0 && b != 0x80 && b & 0x7F == b
  {
  }

  lemma DecodeLongOctets(length: Length, rest: seq<byte>)
    requires length >= 128
    ensures DecodeLength(LengthOctets(length) + rest)
         == if length >= 0x0100_0000_0000_0000 then LengthRead(|LengthOctets(length)|, length, None)
            else LengthRead(|LengthOctets(length)|, 0, Some(Uint64Panic))
  {
    var c := LongContent(length);
    LongContentValue(length);
    FullContent(length);
    DecodeLongForm(c, rest);
    assert LengthOctets(length) + rest == [B8 | (|c| as byte)] + c + rest;
  }

  /** The corrected decoder undoes the encoder for every length. */
  lemma DecodeLengthPaddedOctets(length: Length, rest: seq<byte>)
    ensures DecodeLengthPadded(LengthOctets(length) + rest) == LengthRead(|LengthOctets(length)|, length, None)
  {
    if length >= 128 {
      var c := LongContent(length);
      LongContentValue(length);
      DecodeLongForm(c, rest);
      BigEndianValueZeros(8 - |c|, c);
      assert LengthOctets(length) + rest == [B8 | (|c| as byte)] + c + rest;
    } else {
      ShortOctet(length);
    }
  }

  /** How both decoders read a long form of 1 to 8 content octets c. */
  lemma DecodeLongForm(c: seq<byte>, rest: seq<byte>)
    requires 1 <= |c| <= 8
    ensures DecodeLength([B8 | (|c| as byte)] + c + rest)
         == if |c| == 8 then LengthRead(9, BigEndianValue(c), None) else LengthRead(1 + |c|, 0, Some(Uint64Panic))
    ensures DecodeLengthPadded([B8 | (|c| as byte)] + c + rest)
         == LengthRead(1 + |c|, BigEndianValue(Zeros(8 - |c|) + c), None)
  {
    var s := [B8 | (|c| as byte)] + c + rest;
    CountOctet(|c|);
    assert s[1..1 + |c|] == c;
    LongFormAt(s, |c|);
    if |c| == 8 {
      assert Zeros(0) + c == c;
    }
  }

  /** Both decoders on an input whose first octet announces n long-form octets
      and that holds at least that many. */
  lemma LongFormAt(s: seq<byte>, n: nat)
    requires 1 <= n <= 8 && |s| >= 1 + n
    requires s[0] != 0x80 && s[0] & B8 != 0 && (s[0] & 0x7F) as nat == n
    ensures DecodeLength(s)
         == if n == 8 then LengthRead(9, BigEndianValue(s[1..9]), None) else LengthRead(1 + n, 0, Some(Uint64Panic))
    ensures DecodeLengthPadded(s) == LengthRead(1 + n, BigEndianValue(Zeros(8 - n) + s[1..1 + n]), None)
  {
    if n == 8 {
      assert Zeros(0) + s[1..9] == s[1..9];
    }
  }

  /** The count octet of a long form of n content octets. */
  lemma CountOctet(n: nat)
    requires 1 <= n <= 8
    ensures (B8 | n as byte) != 0x80 && (B8 | n as byte) & B8 != 0 && ((B8 | n as byte) & 0x7F) as int == n
  {
    if n == 1 {} else if n == 2 {} else if n == 3 {} else if n == 4 {}
    else if n == 5 {} else if n == 6 {} else if n == 7 {} else {}
  }

  /** The only inputs the decoder accepts: a short form, or a long form of
      exactly eight octets (leading zero octets allowed, so non-minimal
      encodings are accepted too). */
  lemma DecodeLengthAccepts(s: seq<byte>)
    ensures DecodeLength(s).err == None <==> s != [] && (s[0] < 0x80 || (s[0] == 0x88 && |s| >= 9))
    ensures s != [] && s[0] < 0x80 ==> DecodeLength(s) == LengthRead(1, s[0] as int, None)
    ensures s != [] && s[0] == 0x88 && |s| >= 9 ==> DecodeLength(s) == LengthRead(9, BigEndianValue(s[1..9]), None)
  {
  }

  /** The error outcomes and what each consumes: the indefinite marker and an
      over-long count cost one octet, missing or short long-form octets cost
      all that was left. */
  lemma DecodeLengthErrors(s: seq<byte>)
    ensures DecodeLength(s).err == Some(NoInput) <==> s == []
    ensures DecodeLength(s).err == Some(Indefinite) <==> s != [] && s[0] == 0x80
    ensures DecodeLength(s).err == Some(TooManyOctets) <==> s != [] && s[0] > 0x88
    ensures DecodeLength(s).err in {Some(Indefinite), Some(TooManyOctets)} ==> DecodeLength(s).bytesRead == 1
    ensures DecodeLength(s).err in {Some(OctetsMissing), Some(OctetsShort)} <==>
              s != [] && 0x80 < s[0] <= 0x88 && |s| < 1 + (s[0] & 0x7F) as nat
    ensures DecodeLength(s).err in {Some(OctetsMissing), Some(OctetsShort)} ==> DecodeLength(s).bytesRead == |s|
    ensures DecodeLength(s).err == Some(Uint64Panic) <==> s != [] && 0x80 < s[0] < 0x88 && |s| >= 1 + (s[0] & 0x7F) as nat
  {
  }

  /** LengthOctets of a long length read off a given 8-octet image of it
      whose first nonzero octet is at z. */
  lemma LengthOctetsFromImage(length: Length, raw: seq<byte>, z: nat)
    requires length >= 128 && |raw| == 8 && BigEndianValue(raw) == length
    requires z < 8 && (forall k :: 0 <= k < z ==> raw[k] == 0) && raw[z] != 0
    ensures LengthOctets(length) == [(|raw[z..]| as byte) | B8] + raw[z..]
  {
    BigEndianOfValue(raw);
    LeadingZerosAt(raw, z);
  }

  lemma ExampleShortLengths()
    ensures LengthOctets(0) == [0x00] && LengthOctets(127) == [0x7F]
    ensures DecodeLength([0x88, 0, 0, 0, 0, 0, 0, 0, 5]) == LengthRead(9, 5, None)
  {
    var s: seq<byte> := [0x88, 0, 0, 0, 0, 0, 0, 0, 5];
    assert s[1..9] == Zeros(7) + [5];
    BigEndianValueZeros(7, [5]);
    assert [5 as byte][..0] == [];
  }

  /** 128, the smallest long-form length: its encoding names one octet. */
  lemma ExampleLongLength()
    ensures LengthOctets(128) == [0x81, 0x80]
  {
    var raw: seq<byte> := [0, 0, 0, 0, 0, 0, 0, 0x80];
    assert BigEndianValue(raw) == 128 by {
      assert raw == Zeros(7) + [0x80];
      BigEndianValueZeros(7, [0x80]);
      assert [0x80 as byte][..0] == [];
    }
    assert (|raw[7..]| as byte) | B8 == 0x81 && raw[7..] == [0x80];
    LengthOctetsFromImage(128, raw, 7);
  }

  /** ... and the decoder cannot read that encoding back. */
  lemma ExampleLongLengthRejected()
    ensures DecodeLength([0x81, 0x80]) == LengthRead(2, 0, Some(Uint64Panic))
    ensures DecodeLengthPadded([0x81, 0x80]) == LengthRead(2, 128, None)
  {
    LongFormAt([0x81, 0x80], 1);
    assert [0x81 as byte, 0x80][1..2] == [0x80];
    assert BigEndianValue(Zeros(7) + [0x80]) == 128 by {
      BigEndianValueZeros(7, [0x80]);
      assert [0x80 as byte][..0] == [];
    }
  }

  /** A full eight-octet long form is read back. */
  lemma ExampleEightOctets()
    ensures DecodeLength([0x88, 0x01, 0, 0, 0, 0, 0, 0, 0]) == LengthRead(9, 0x0100_0000_0000_0000, None)
  {
    var raw: seq<byte> := [0x01, 0, 0, 0, 0, 0, 0, 0];
    assert BigEndianValue(raw) == 0x0100_0000_0000_0000 by {
      assert raw == [0x01] + Zeros(7);
      BigEndianValueCons(0x01, Zeros(7));
      ZerosValue(7);
      Pow256Bounds();
    }
    assert [0x88 as byte, 0x01, 0, 0, 0, 0, 0, 0, 0][1..9] == raw;
  }
}
