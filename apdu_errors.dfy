/** General APDU errors: a status word with a fixed message for eight known
    codes of ISO/IEC 7816-4 section 5.1.3 and a hexadecimal rendering for all
    others. */
module ApduErrors {
  import opened Octets

  const ErrorNonSpecific: uint16 := 0x6400
  const ErrorWrongLengthLc: uint16 := 0x6700
  const ErrorLogicalChannelNotSupportedOrInUse: uint16 := 0x6881
  const ErrorSecurityStatusNotSatisfied: uint16 := 0x6982
  const ErrorConditionsOfUseNotSatisfied: uint16 := 0x6985
  const ErrorIncorrectP1P2: uint16 := 0x6A86
  const ErrorInvalidInstruction: uint16 := 0x6D00
  const ErrorInvalidClass: uint16 := 0x6E00

  const ErrStringPrefix: string := "APDU General Error: "
  const ErrStringNonSpecific: string := "Non specific diagnosis"
  const ErrStringWrongLengthLc: string := "Wrong length in Lc"
  const ErrStringLogicalChannelNotSupportedOrInUse: string := "Logical channel not supported or is not active"
  const ErrStringSecurityStatusNotSatisfied: string := "Security status not satisfied"
  const ErrStringConditionsOfUseNotSatisfied: string := "Conditions of use not satisfied"
  const ErrStringIncorrectP1P2: string := "Incorrect P1 P2"
  const ErrStringInvalidInstruction: string := "Invalid instruction"
  const ErrStringInvalidClass: string := "Invalid class"

  /** The text String starts from before its switch overwrites it. */
  const ErrStringUnreachable: string := "APDU error handling error"
  const ErrStringUnknownPrefix: string := "Unknown APDU Error: "

  /** Whether the code is one of the eight with a fixed message. */
  predicate KnownCode(raw: uint16) {
    raw == ErrorNonSpecific || raw == ErrorWrongLengthLc || raw == ErrorLogicalChannelNotSupportedOrInUse
    || raw == ErrorSecurityStatusNotSatisfied || raw == ErrorConditionsOfUseNotSatisfied
    || raw == ErrorIncorrectP1P2 || raw == ErrorInvalidInstruction || raw == ErrorInvalidClass
  }

  datatype Error = Error(raw: uint16)
  {
    /** Error: the error interface returns the same text as String. */
    function Error(): (s: string)
      ensures s == String()
    {
      String()
    }

    /** String: a known code gives the general prefix and its message, any
        other code the unknown prefix and four upper-case hex digits. Both
        prefixes are 20 characters long; the initial placeholder never
        survives. */
    function String(): (out: string)
      ensures |out| > 20
      ensures out[..20] == ErrStringPrefix <==> KnownCode(raw)
      ensures out[..20] == ErrStringUnknownPrefix <==> !KnownCode(raw)
      ensures !KnownCode(raw) ==> |out| == 24 && HexNumber(out[20..]) == raw
      ensures out != ErrStringUnreachable
    {
      if raw == ErrorNonSpecific then FormatErrorStringGeneral(ErrStringNonSpecific)
      else if raw == ErrorWrongLengthLc then FormatErrorStringGeneral(ErrStringWrongLengthLc)
      else if raw == ErrorLogicalChannelNotSupportedOrInUse then
        FormatErrorStringGeneral(ErrStringLogicalChannelNotSupportedOrInUse)
      else if raw == ErrorSecurityStatusNotSatisfied then FormatErrorStringGeneral(ErrStringSecurityStatusNotSatisfied)
      else if raw == ErrorConditionsOfUseNotSatisfied then FormatErrorStringGeneral(ErrStringConditionsOfUseNotSatisfied)
      else if raw == ErrorIncorrectP1P2 then FormatErrorStringGeneral(ErrStringIncorrectP1P2)
      else if raw == ErrorInvalidInstruction then FormatErrorStringGeneral(ErrStringInvalidInstruction)
      else if raw == ErrorInvalidClass then FormatErrorStringGeneral(ErrStringInvalidClass)
      else
        HexRoundTrip(raw);
        ErrStringUnknownPrefix + Hex4(raw)
    }
  }

  /** NewError: the two bytes big-endian. */
  function NewError(err: seq<byte>): (e: Error)
    requires |err| == 2
    ensures e.raw as int == err[0] as int * 256 + err[1] as int
  {
    Uint16Value(err);
    Error(Uint16(err))
  }

  function FormatErrorStringGeneral(errString: string): string {
    ErrStringPrefix + errString
  }

  // ---------------------------------------------------------------------------
  // Four-digit upper-case hexadecimal, as fmt's %04X writes a uint16.

  const HexDigits: string := "0123456789ABCDEF"

  /** The digit of the nibble of v at the given shift. */
  function Nibble(v: uint16, shift: uint16): (c: char)
    requires shift <= 12
    ensures c in HexDigits
  {
    HexDigits[((v >> shift) & 0xF) as int]
  }

  function Hex4(v: uint16): (s: string)
    ensures |s| == 4
    ensures forall i :: 0 <= i < 4 ==> s[i] in HexDigits
  {
    [Nibble(v, 12), Nibble(v, 8), Nibble(v, 4), Nibble(v, 0)]
  }

  /** The value of a hexadecimal digit; 0 for any other character. */
  function HexValue(c: char): uint16 {
    match c
    case '1' => 1 case '2' => 2 case '3' => 3 case '4' => 4 case '5' => 5 case '6' => 6 case '7' => 7
    case '8' => 8 case '9' => 9 case 'A' => 10 case 'B' => 11 case 'C' => 12 case 'D' => 13 case 'E' => 14
    case 'F' => 15 case _ => 0
  }

  /** The number four hexadecimal digits spell. */
  function HexNumber(s: string): uint16
    requires |s| == 4
  {
    (HexValue(s[0]) << 12) | (HexValue(s[1]) << 8) | (HexValue(s[2]) << 4) | HexValue(s[3])
  }

  lemma NibbleValue(v: uint16, shift: uint16)
    requires shift <= 12
    ensures HexValue(Nibble(v, shift)) == (v >> shift) & 0xF
  {
    DigitValue((v >> shift) & 0xF);
  }

  lemma DigitValue(d: uint16)
    requires d < 16
    ensures HexValue(HexDigits[d as int]) == d
  {
    if d < 8 {
      if d < 4 {
        if d == 0 {} else if d == 1 {} else if d == 2 {} else {}
      } else {
        if d == 4 {} else if d == 5 {} else if d == 6 {} else {}
      }
    } else {
      if d < 12 {
        if d == 8 {} else if d == 9 {} else if d == 10 {} else {}
      } else {
        if d == 12 {} else if d == 13 {} else if d == 14 {} else {}
      }
    }
  }

  /** Reading back the four digits gives the number. */
  lemma HexRoundTrip(v: uint16)
    ensures HexNumber(Hex4(v)) == v
  {
    NibbleValue(v, 12);
    NibbleValue(v, 8);
    NibbleValue(v, 4);
    NibbleValue(v, 0);
  }
}
