/** The GlobalPlatform command: an APDU command with a GlobalPlatform class,
    at most 255 octets of data, and the expected length reduced to a flag. */
module GpCommand {
  import opened Octets
  import GpClass
  import ApduCommand

  datatype Command = Command(
    cls: GpClass.Class,
    instruction: byte,
    p1: byte,
    p2: byte,
    data: seq<byte>,
    expectResponseData: bool)

  datatype CommandError = TooMuchData  // "too much data, one GP APDU command may only contain 255 bytes"

  /** The zero apdu.Command returned beside an error. */
  const ZeroCommand: ApduCommand.Command := ApduCommand.Command(None, 0, 0, 0, [], false, 0)

  /** ToAPDU: more than 255 octets of data are refused; otherwise the fields
      are copied, an expected response becomes the expected length 256, and
      the result never sets ExpectResponseData. */
  function ToAPDU(c: Command): (r: (ApduCommand.Command, Option<CommandError>))
    ensures r.1.Some? <==> |c.data| > 255
    ensures r.1.Some? ==> r.0 == ZeroCommand
    ensures r.1.None? ==> r.0.cls == Some(c.cls.ToClassByte()) && r.0.instruction == c.instruction
                          && r.0.p1 == c.p1 && r.0.p2 == c.p2 && r.0.data == c.data
    ensures r.1.None? ==> !r.0.expectResponseData
                          && r.0.expectedResponseLength == (if c.expectResponseData then 256 else 0)
  {
    if |c.data| > 255 then (ZeroCommand, Some(TooMuchData))
    else
      var expectedLength := if c.expectResponseData then 256 else 0;
      (ApduCommand.Command(Some(c.cls.ToClassByte()), c.instruction, c.p1, c.p2, c.data, false, expectedLength), None)
  }
}
