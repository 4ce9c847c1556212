/** GlobalPlatform commands always fit the short form. */
module GpCommandProps {
  import opened Octets
  import opened GpCommand
  import ApduCommand
  import ApduCommandProps

  /** A converted command is never sent with extended lengths: Lc is at most
      one octet, and Le is 00 (256) exactly when a response is expected. */
  lemma ShortFormOnly(c: Command)
    requires ToAPDU(c).1.None?
    ensures !ToAPDU(c).0.UsesExtendedLengths()
    ensures |ApduCommand.LcField(ToAPDU(c).0)| <= 1
    ensures ApduCommand.LeField(ToAPDU(c).0) == if c.expectResponseData then [0x00] else []
  {
    ApduCommandProps.LcFieldShape(ToAPDU(c).0);
  }

  /** With no data and no response expected, only the header is sent. */
  lemma BareHeader(c: Command)
    requires c.data == [] && !c.expectResponseData
    ensures ApduCommand.Encoding(ToAPDU(c).0)
         == [c.cls.ToClassByte(), c.instruction, c.p1, c.p2]
  {
  }

  /** The whole GlobalPlatform command as sent: the header, a one-octet Lc
      when there is data, the data, and Le 00 when a response is expected. */
  lemma Encoded(c: Command)
    requires ToAPDU(c).1.None?
    ensures ApduCommand.Encoding(ToAPDU(c).0)
         == [c.cls.ToClassByte(), c.instruction, c.p1, c.p2]
            + (if c.data == [] then [] else [|c.data| as byte]) + c.data
            + (if c.expectResponseData then [0x00] else [])
  {
    ShortFormOnly(c);
  }
}
