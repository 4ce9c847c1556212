/** The error text identifies the code, and the known codes read as documented. */
module ApduErrorsProps {
  import opened Octets
  import opened ApduErrors

  /** The eight known codes and their messages. */
  lemma KnownMessages()
    ensures Error(ErrorNonSpecific).String() == ErrStringPrefix + ErrStringNonSpecific
    ensures Error(ErrorWrongLengthLc).String() == ErrStringPrefix + ErrStringWrongLengthLc
    ensures Error(ErrorLogicalChannelNotSupportedOrInUse).String()
         == ErrStringPrefix + ErrStringLogicalChannelNotSupportedOrInUse
    ensures Error(ErrorSecurityStatusNotSatisfied).String() == ErrStringPrefix + ErrStringSecurityStatusNotSatisfied
    ensures Error(ErrorConditionsOfUseNotSatisfied).String() == ErrStringPrefix + ErrStringConditionsOfUseNotSatisfied
    ensures Error(ErrorIncorrectP1P2).String() == ErrStringPrefix + ErrStringIncorrectP1P2
    ensures Error(ErrorInvalidInstruction).String() == ErrStringPrefix + ErrStringInvalidInstruction
    ensures Error(ErrorInvalidClass).String() == ErrStringPrefix + ErrStringInvalidClass
  {
  }

  /** The unknown-code rendering of the zero value and of FFFF. */
  lemma ExampleUnknown()
    ensures Error(0).Error() == "Unknown APDU Error: 0000"
    ensures Error(0xFFFF).Error() == "Unknown APDU Error: FFFF"
  {
  }

  /** A known code's text is the prefix and a message; the eight messages have
      eight different lengths. */
  lemma KnownTextLength(e: Error)
    requires KnownCode(e.raw)
    ensures |e.String()| == 20 + MessageLength(e.raw)
  {
  }

  function MessageLength(raw: uint16): nat {
    if raw == ErrorNonSpecific then 22
    else if raw == ErrorWrongLengthLc then 18
    else if raw == ErrorLogicalChannelNotSupportedOrInUse then 46
    else if raw == ErrorSecurityStatusNotSatisfied then 29
    else if raw == ErrorConditionsOfUseNotSatisfied then 31
    else if raw == ErrorIncorrectP1P2 then 15
    else if raw == ErrorInvalidInstruction then 19
    else if raw == ErrorInvalidClass then 13
    else 4
  }

  /** The message lengths tell the known codes apart. */
  lemma MessageLengthsDistinct(a: uint16, b: uint16)
    requires KnownCode(a) && KnownCode(b) && MessageLength(a) == MessageLength(b)
    ensures a == b
  {
  }

  /** Different codes give different texts: the text is a function of the code
      and determines it. */
  lemma StringInjective(e: Error, f: Error)
    requires e.String() == f.String()
    ensures e == f
  {
    if KnownCode(e.raw) && KnownCode(f.raw) {
      KnownTextLength(e);
      KnownTextLength(f);
      MessageLengthsDistinct(e.raw, f.raw);
    } else if !KnownCode(e.raw) && !KnownCode(f.raw) {
      UnknownInjective(e, f);
    } else {
      assert false;
    }
  }

  lemma UnknownInjective(e: Error, f: Error)
    requires !KnownCode(e.raw) && !KnownCode(f.raw)
    requires e.String() == f.String()
    ensures e == f
  {
    var s := e.String();
    assert HexNumber(s[20..]) == e.raw;
  }

  /** NewError reads back the bytes of any code. */
  lemma NewErrorRoundTrip(e: Error)
    ensures NewError(PutUint16(e.raw)) == e
  {
    Uint16OfPutUint16(e.raw);
  }
}
