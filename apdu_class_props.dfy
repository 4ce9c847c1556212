/** The layout of the class byte ToClassByte emits, and how far the getters
    agree with what the byte says. */
module ApduClassProps {
  import opened Octets
  import opened ApduClass

  /** The first form for channels 0 to 3 and above 19: b8-b6 clear. */
  lemma FirstFormBits(c: InterindustryClass)
    requires !c.LongChannel()
    ensures c.ToClassByte() & 0xE0 == 0x00
    ensures c.ToClassByte() & 0x03 == (if c.logicalChannelNumber < LongChannelsStart then c.logicalChannelNumber else 0)
    ensures c.ToClassByte() & 0x0C == (if c.secureMessaging < 4 then c.secureMessaging << 2 else 0)
  {
  }

  /** The further form for channels 4 to 19: b8-b7 = 01, the channel less 4
      in b4-b1, b6 set exactly for secure messaging without header processing. */
  lemma FurtherFormBits(c: InterindustryClass)
    requires c.LongChannel()
    ensures c.ToClassByte() & 0xC0 == 0x40
    ensures c.ToClassByte() & 0x0F == c.logicalChannelNumber - LongChannelsStart
    ensures c.ToClassByte() & B6 != 0 <==> c.secureMessaging == SMISONoHeaderProcessing
  {
  }

  /** For channels up to 19 the byte carries what the getters report. */
  lemma FieldsAgree(c: InterindustryClass)
    requires c.logicalChannelNumber <= LongChannelsEnd
    ensures SMField(c.ToClassByte()) == c.GetSMIndication()
    ensures ChannelField(c.ToClassByte()) == c.GetLogicalChannel()
  {
    if c.LongChannel() {
      FurtherFormBits(c);
    } else {
      FirstFormBits(c);
    }
  }

  /** Above channel 19 the channel still agrees (both 0), but the encoder keeps
      a secure-messaging indication of 1 to 3 that the getter drops: the two
      agree exactly when that does not happen. */
  lemma SMAgreement(c: InterindustryClass)
    ensures ChannelField(c.ToClassByte()) == c.GetLogicalChannel()
    ensures SMField(c.ToClassByte()) == c.GetSMIndication()
        <==> !(c.logicalChannelNumber > LongChannelsEnd && 1 <= c.secureMessaging <= 3)
  {
    if c.LongChannel() {
      FurtherFormBits(c);
    } else {
      FirstFormBits(c);
    }
  }

  /** A class whose channel is at most 19 and whose indication the channel's
      form can carry is recovered from its byte. */
  lemma ClassByteFields(c: InterindustryClass)
    requires c.logicalChannelNumber <= LongChannelsEnd
    requires if c.LongChannel() then c.secureMessaging in {SMNone, SMISONoHeaderProcessing} else c.secureMessaging <= 3
    ensures InterindustryClass(c.ToClassByte() & B5 != 0, SMField(c.ToClassByte()), ChannelField(c.ToClassByte())) == c
  {
    FieldsAgree(c);
  }

  lemma ExampleClassBytes()
    ensures InterindustryClass(false, SMNone, 0).ToClassByte() == 0x00
    ensures InterindustryClass(true, SMISOHeaderAuth, 3).ToClassByte() == 0x1F
    ensures InterindustryClass(false, SMISONoHeaderProcessing, 4).ToClassByte() == 0x60
    ensures InterindustryClass(true, SMProprietary, 19).ToClassByte() == 0x5F
    ensures InterindustryClass(false, SMISOHeaderAuth, 20).ToClassByte() == 0x0C
  {
  }
}
