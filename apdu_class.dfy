/** The interindustry class byte CLA of ISO/IEC 7816-4 section 5.1.1: the
    first interindustry values (b8-b6 = 000) for logical channels 0 to 3, the
    further interindustry values (b8-b7 = 01) for channels 4 to 19; command
    chaining in b5; secure messaging (section 6) in b4-b3 of the first form
    and in b6 of the further form. Only the encoder exists in the package. */
module ApduClass {
  import opened Octets

  // Secure-messaging indications (CLASecureMessaging)
  const SMNone: byte := 0x00
  const SMProprietary: byte := 0x01
  const SMISONoHeaderProcessing: byte := 0x02
  const SMISOHeaderAuth: byte := 0x03

  const FirstInterindustryClassBase: byte := 0x00
  const FurtherInterindustryClassBase: byte := 0x40
  const LongChannelsStart: byte := 4
  const LongChannelsEnd: byte := 19

  datatype InterindustryClass = InterindustryClass(
    notLastCommandOfChain: bool,
    secureMessaging: byte,
    logicalChannelNumber: byte)
  {
    /** Whether the channel number selects the further interindustry form. */
    predicate LongChannel() {
      LongChannelsStart <= logicalChannelNumber <= LongChannelsEnd
    }

    /** ToClassByte. A channel above 19 is treated as channel 0 in the first
        form; a secure-messaging value the form cannot carry as none. */
    function ToClassByte(): (out: byte)
      ensures out & B8 == 0
      ensures out & B5 != 0 <==> notLastCommandOfChain
    {
      var shortChannels := !LongChannel();
      var base := if shortChannels then FirstInterindustryClassBase else FurtherInterindustryClassBase;
      var chained := if notLastCommandOfChain then base | B5 else base;
      var sm :=
        if shortChannels then (if secureMessaging < 4 then chained | (secureMessaging << 2) else chained)
        else if secureMessaging == SMISONoHeaderProcessing then chained | B6
        else chained;
      if shortChannels then (if logicalChannelNumber < LongChannelsStart then sm | logicalChannelNumber else sm)
      else sm | (logicalChannelNumber - LongChannelsStart)
    }

    /** ToInterindustry: an interindustry class is already one. */
    function ToInterindustry(): (r: InterindustryClass)
      ensures r.ToClassByte() == ToClassByte()
    {
      this
    }

    function IsLastCommand(): (last: bool)
      ensures last <==> ToClassByte() & B5 == 0
    {
      !notLastCommandOfChain
    }

    /** GetSMIndication: the indication when the channel's form can carry it,
        none otherwise (including every channel above 19). */
    function GetSMIndication(): (sm: byte)
      ensures sm <= 3
      ensures LongChannel() ==> sm == SMNone || sm == SMISONoHeaderProcessing
      ensures logicalChannelNumber > LongChannelsEnd ==> sm == SMNone
    {
      if logicalChannelNumber < LongChannelsStart && secureMessaging < 4 then secureMessaging
      else if LongChannel() && secureMessaging == SMISONoHeaderProcessing then SMISONoHeaderProcessing
      else SMNone
    }

    /** GetLogicalChannel: a channel above 19 reads as 0. */
    function GetLogicalChannel(): (ch: byte)
      ensures ch <= LongChannelsEnd
      ensures logicalChannelNumber <= LongChannelsEnd ==> ch == logicalChannelNumber
    {
      if logicalChannelNumber > LongChannelsEnd then 0 else logicalChannelNumber
    }
  }

  // ---------------------------------------------------------------------------
  // The fields of a class byte as ISO/IEC 7816-4 section 5.1.1 lays them out:
  // the reading the encoder is checked against.

  /** Whether b is of the further interindustry form (b8-b7 = 01). */
  predicate FurtherForm(b: byte) {
    b & 0xC0 == FurtherInterindustryClassBase
  }

  /** The secure-messaging indication a class byte carries. */
  function SMField(b: byte): byte {
    if !FurtherForm(b) then (b & 0x0C) >> 2
    else if b & B6 != 0 then SMISONoHeaderProcessing
    else SMNone
  }

  /** The logical channel a class byte names. */
  function ChannelField(b: byte): byte {
    if !FurtherForm(b) then b & 0x03 else (b & 0x0F) + LongChannelsStart
  }
}
