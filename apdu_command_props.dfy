/** What the command encoding says: the layout of the fields, when each is
    present and in which form, and that each length field reads back as the
    length it stands for. */
module ApduCommandProps {
  import opened Octets
  import opened ApduCommand

  /** The expected response length, 0 meaning the maximum, 65536. */
  function ExpectedLength(c: Command): nat {
    if c.expectedResponseLength == 0 then 0x1_0000 else c.expectedResponseLength
  }

  /** The length a received Lc or Le field announces (ISO/IEC 7816-4 section
      5.1): none when absent; one octet, 00 meaning 256; otherwise the last two
      octets big-endian, 00 00 meaning 65536. */
  function FieldNumber(f: seq<byte>): nat {
    if |f| == 0 then 0
    else if |f| == 1 then (if f[0] == 0 then 256 else f[0] as nat)
    else
      var v := BigEndianValue(f[|f| - 2..]);
      if v == 0 then 0x1_0000 else v
  }

  /** The command is the header, Lc, the data and Le, in that order. */
  lemma EncodingLayout(c: Command)
    requires |c.data| <= MaxData
    ensures |Encoding(c)| == 4 + |LcField(c)| + |c.data| + |LeField(c)|
    ensures Encoding(c)[..4] == [ClassByte(c), c.instruction, c.p1, c.p2]
    ensures Encoding(c)[4..4 + |LcField(c)|] == LcField(c)
    ensures Encoding(c)[4 + |LcField(c)|..4 + |LcField(c)| + |c.data|] == c.data
    ensures Encoding(c)[4 + |LcField(c)| + |c.data|..] == LeField(c)
  {
    var e := Encoding(c);
    var lc := LcField(c);
    assert e == Header(c) + lc + c.data + LeField(c);
  }

  /** Only a command with no data in or out is sent as its bare header. */
  lemma HeaderOnlyEncoding(c: Command)
    requires |c.data| <= MaxData
    ensures |Encoding(c)| == 4 <==> c.HeaderOnly()
  {
    LeFieldShape(c);
  }

  /** Extended lengths are used exactly when the expected length or the data
      length is more than a short field holds. */
  lemma ExtendedExactly(c: Command)
    ensures c.UsesExtendedLengths() <==> (c.LePresent() && ExpectedLength(c) > 256) || |c.data| > 256
  {
  }

  /** Le: absent without an expected response; one octet in the short form;
      two in the extended form, behind the 00 marker when there is no data. */
  lemma LeFieldShape(c: Command)
    ensures |LeField(c)| == (if !c.LePresent() then 0 else if !c.UsesExtendedLengths() then 1
                             else if |c.data| == 0 then 3 else 2)
  {
  }

  /** Lc: absent without data; one octet in the short form; 00 and two octets
      in the extended form, only 00 00 for 65536 octets. */
  lemma LcFieldShape(c: Command)
    requires |c.data| <= MaxData
    ensures |LcField(c)| == (if |c.data| == 0 then 0 else if !c.UsesExtendedLengths() then 1
                             else if |c.data| == MaxData then 2 else 3)
    ensures c.UsesExtendedLengths() && |c.data| > 0 ==> LcField(c)[0] == 0
  {
  }

  /** In the extended form the first octet after the header is the 00 marker. */
  lemma ExtendedMarker(c: Command)
    requires |c.data| <= MaxData
    requires c.UsesExtendedLengths()
    ensures |Encoding(c)| > 4 && Encoding(c)[4] == 0
  {
    EncodingLayout(c);
    LcFieldShape(c);
    LeFieldShape(c);
    if |c.data| == 0 {
      assert Encoding(c)[4] == LeField(c)[0];
    } else {
      assert Encoding(c)[4] == LcField(c)[0];
    }
  }

  /** Le reads back as the expected length. */
  lemma LeDecodes(c: Command)
    requires c.LePresent()
    ensures FieldNumber(LeField(c)) == ExpectedLength(c)
  {
    if c.UsesExtendedLengths() {
      ExtendedNumber(if |c.data| == 0 then [0] else [], c.expectedResponseLength);
    } else {
      ShortNumber(c.expectedResponseLength);
    }
  }

  /** Lc reads back as the number of data octets. */
  lemma LcDecodes(c: Command)
    requires 0 < |c.data| <= MaxData
    ensures FieldNumber(LcField(c)) == |c.data|
  {
    if c.UsesExtendedLengths() {
      if |c.data| == MaxData {
        ZerosValue(2);
      } else {
        ExtendedNumber([0], |c.data|);
      }
    } else {
      ShortNumber(|c.data|);
    }
  }

  lemma ShortNumber(n: nat)
    requires 1 <= n <= 256
    ensures FieldNumber(ShortLengthField(n)) == n
  {
    if n < 256 {
      ByteValue(n);
    }
  }

  lemma ExtendedNumber(marker: seq<byte>, n: nat)
    requires |marker| <= 1 && n < 0x1_0000
    ensures FieldNumber(marker + BigEndian(n, 2)) == if n == 0 then 0x1_0000 else n
  {
    var f := marker + BigEndian(n, 2);
    assert f[|f| - 2..] == BigEndian(n, 2);
    Pow256Bounds();
    BigEndianValueOf(n, 2);
  }
}
