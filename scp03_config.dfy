/** The SCP03 "i" parameter (GlobalPlatform Card Specification Amendment D,
    section 5.1) as the package reads and writes it: b1 clear selects legacy
    S8 mode, b5 a pseudo-random card challenge, b6 R-MAC support and b7
    R-ENCRYPTION support on top of it. */
module Scp03Config {
  import opened Octets

  datatype Configuration = Configuration(
    legacyS8Mode: bool,
    pseudoRandomChallenge: bool,
    noRMACEncryption: bool,
    noREncryption: bool)
  {
    /** ToByte */
    function ToByte(): (out: byte)
      ensures out & 0x8E == 0
      ensures out & 0x40 != 0 ==> out & 0x20 != 0
    {
      var s8: byte := if !legacyS8Mode then 0x01 else 0x00;
      var challenge: byte := if pseudoRandomChallenge then s8 | 0x10 else s8;
      if !noRMACEncryption then
        if !noREncryption then challenge | 0x20 | 0x40 else challenge | 0x20
      else challenge
    }

    /** What the byte cannot express: R-ENCRYPTION without R-MAC. */
    predicate Consistent() {
      noRMACEncryption ==> noREncryption
    }
  }

  /** ParseConfiguration */
  function ParseConfiguration(b: byte): (conf: Configuration)
    ensures conf.Consistent()
    ensures conf.legacyS8Mode <==> b & 0x01 == 0
    ensures conf.pseudoRandomChallenge <==> b & 0x10 != 0
    ensures conf.noRMACEncryption <==> b & 0x20 == 0
    ensures b & 0x20 != 0 ==> (conf.noREncryption <==> b & 0x40 == 0)
  {
    var noRMAC := b & 0x20 == 0;
    Configuration(b & 0x01 == 0, b & 0x10 > 0, noRMAC, if noRMAC then true else b & 0x40 == 0)
  }

  /** Writing then reading gives back every configuration the byte can hold. */
  lemma ParseToByte(c: Configuration)
    requires c.Consistent()
    ensures ParseConfiguration(c.ToByte()) == c
  {
  }

  /** Reading then writing keeps b7, b6, b5 and b1, dropping b7 when b6 is
      clear, and clears the bits the parameter does not use. */
  lemma ToByteParse(b: byte)
    ensures ParseConfiguration(b).ToByte() == if b & 0x20 != 0 then b & 0x71 else b & 0x11
  {
  }
}
