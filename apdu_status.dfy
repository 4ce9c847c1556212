/** Response status words SW1-SW2 (ISO/IEC 7816-4 section 5.1.3) and the
    package's classification of them. As written, only the normal, warning
    and proprietary routes produce anything else than an invalid status: the
    execution-error and checking-error identifiers have empty switches. */
module ApduStatus {
  import opened Octets

  datatype StatusCategory =
    | StatusCategoryInvalid
    | StatusCategoryNormal
    | StatusCategoryWarning
    | StatusCategoryExecError
    | StatusCategoryCheckError
    | StatusCategoryProprietary

  datatype RawStatus = RawStatus(sw1: byte, sw2: byte)
  {
    /** The two status bytes as one big-endian number. */
    function Combined(): uint16 {
      ((sw1 as uint16) << 8) | (sw2 as uint16)
    }

    /** Identify. The cases are tried in order: explicitly invalid first
        bytes, 9000, the exact checking-error values, the proprietary
        ranges, then 61, 62-63, 64-66 and 68-6A, 6C. */
    function Identify(): (s: Status)
      ensures s.Raw() == this
    {
      var firstSW1Nibble := sw1 & 0xF0;
      var combined := Combined();
      if (firstSW1Nibble != 0x60 && firstSW1Nibble != 0x90) || sw1 == 0x60 then StatusInvalid(this)
      else if combined == 0x9000 then IdentifyNormal(this)
      else if combined == 0x6700 || combined == 0x6B00 || combined == 0x6D00 || combined == 0x6E00 || combined == 0x6F00
      then IdentifyCheckError(this)
      else if sw1 == 0x67 || sw1 == 0x6B || sw1 == 0x6D || sw1 == 0x6E || sw1 == 0x6F || firstSW1Nibble == 0x90
      then StatusProprietary(this)
      else if sw1 == 0x61 then IdentifyNormal(this)
      else if sw1 == 0x62 || sw1 == 0x63 then IdentifyWarning(this)
      else if sw1 == 0x64 || sw1 == 0x65 || sw1 == 0x66 then IdentifyExecError(this)
      else if sw1 == 0x68 || sw1 == 0x69 || sw1 == 0x6A || sw1 == 0x6C then IdentifyCheckError(this)
      else StatusInvalid(this)
    }
  }

  /** The Status implementations; each carries its raw status bytes. */
  datatype Status =
    | StatusInvalid(raw: RawStatus)
    | StatusNormal(raw: RawStatus, noFurtherQualification: bool, remainingDataLength: byte)
    | StatusWarning(nonVolatileMemoryChanged: bool, noInformationGiven: bool, waitingQueryBytesLength: byte,
                    raw: RawStatus)
    | StatusExecError(nonVolatileMemoryChanged: bool, waitingQueryBytesLength: byte, raw: RawStatus)
    | StatusCheckError(raw: RawStatus)
    | StatusProprietary(raw: RawStatus)
  {
    function Category(): (c: StatusCategory)
      ensures c == StatusCategoryInvalid <==> this.StatusInvalid?
      ensures c == StatusCategoryNormal <==> this.StatusNormal?
      ensures c == StatusCategoryWarning <==> this.StatusWarning?
      ensures c == StatusCategoryExecError <==> this.StatusExecError?
      ensures c == StatusCategoryCheckError <==> this.StatusCheckError?
      ensures c == StatusCategoryProprietary <==> this.StatusProprietary?
    {
      match this
      case StatusInvalid(_) => StatusCategoryInvalid
      case StatusNormal(_, _, _) => StatusCategoryNormal
      case StatusWarning(_, _, _, _) => StatusCategoryWarning
      case StatusExecError(_, _, _) => StatusCategoryExecError
      case StatusCheckError(_) => StatusCategoryCheckError
      case StatusProprietary(_) => StatusCategoryProprietary
    }

    /** The raw status bytes, for every implementation. */
    function Raw(): RawStatus {
      raw
    }
  }

  /** identifyNormal: 90 with no further qualification, 61 with SW2 octets
      still available. */
  function IdentifyNormal(r: RawStatus): (s: Status)
    ensures s.Raw() == r
  {
    if r.sw1 == 0x90 then StatusNormal(r, true, 0)
    else if r.sw1 == 0x61 then StatusNormal(r, false, r.sw2)
    else StatusInvalid(r)
  }

  /** identifyWarning: 62 leaves non-volatile memory unchanged, its SW2
      telling 00 no information, 02-80 a query length, 81 nothing more,
      anything else invalid; 63 has changed it. */
  function IdentifyWarning(r: RawStatus): (s: Status)
    ensures s.Raw() == r
  {
    if r.sw1 == 0x62 then
      if r.sw2 == 0x00 then StatusWarning(false, true, 0, r)
      else if 0x02 <= r.sw2 <= 0x80 then StatusWarning(false, false, r.sw2, r)
      else if r.sw2 == 0x81 then StatusWarning(false, false, 0, r)
      else StatusInvalid(r)
    else if r.sw1 == 0x63 then StatusWarning(true, false, 0, r)
    else StatusInvalid(r)
  }

  /** identifyExecError: its switch has no cases. */
  function IdentifyExecError(r: RawStatus): Status
  {
    StatusInvalid(r)
  }

  /** identifyCheckError: its switch has no cases. */
  function IdentifyCheckError(r: RawStatus): Status
  {
    StatusInvalid(r)
  }
}
