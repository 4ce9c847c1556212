/** The GlobalPlatform class byte: the interindustry class byte with b8 set
    for a proprietary GlobalPlatform command. */
module GpClass {
  import opened Octets
  import ApduClass

  datatype Class = Class(interindustry: ApduClass.InterindustryClass, isGPCommand: bool)
  {
    /** ToClassByte: b8 flags a GlobalPlatform command; the other seven bits
        are the interindustry byte, which never sets b8. */
    function ToClassByte(): (out: byte)
      ensures out & B8 != 0 <==> isGPCommand
      ensures out & 0x7F == interindustry.ToClassByte()
      ensures !isGPCommand ==> out == interindustry.ToClassByte()
    {
      var out := interindustry.ToClassByte();
      if isGPCommand then out | B8 else out
    }

    /** The promoted ToInterindustry: the embedded class, whose byte is the
        GlobalPlatform byte without b8. */
    function ToInterindustry(): (r: ApduClass.InterindustryClass)
      ensures r.ToClassByte() == ToClassByte() & 0x7F
      ensures Class(r, isGPCommand) == this
    {
      interindustry.ToInterindustry()
    }
  }
}
