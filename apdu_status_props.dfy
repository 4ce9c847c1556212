/** What Identify makes of each status word. */
module ApduStatusProps {
  import opened Octets
  import opened ApduStatus

  /** The combined status word holds SW1 in its high byte, SW2 in its low one. */
  lemma CombinedBytes(r: RawStatus)
    ensures r.Combined() >> 8 == r.sw1 as uint16
    ensures r.Combined() & 0xFF == r.sw2 as uint16
  {
  }

  /** First bytes outside 6X and 9X, and 60 itself, are invalid. */
  lemma InvalidFirstByte(r: RawStatus)
    requires (r.sw1 & 0xF0 != 0x60 && r.sw1 & 0xF0 != 0x90) || r.sw1 == 0x60
    ensures r.Identify() == StatusInvalid(r)
  {
  }

  /** 9000 and 61XX are the normal statuses. */
  lemma NormalStatuses(r: RawStatus)
    ensures r.Identify().Category() == StatusCategoryNormal <==> (r.sw1 == 0x90 && r.sw2 == 0x00) || r.sw1 == 0x61
    ensures r.sw1 == 0x90 && r.sw2 == 0x00 ==> r.Identify() == StatusNormal(r, true, 0)
    ensures r.sw1 == 0x61 ==> r.Identify() == StatusNormal(r, false, r.sw2)
  {
    CombinedBytes(r);
    CheckValues(r);
  }

  /** The five exact checking-error values, as the combined word sees them. */
  lemma CheckValues(r: RawStatus)
    ensures (r.Combined() == 0x6700 || r.Combined() == 0x6B00 || r.Combined() == 0x6D00 || r.Combined() == 0x6E00
             || r.Combined() == 0x6F00)
        <==> r.sw2 == 0x00 && (r.sw1 == 0x67 || r.sw1 == 0x6B || r.sw1 == 0x6D || r.sw1 == 0x6E || r.sw1 == 0x6F)
  {
    CombinedBytes(r);
  }

  /** Proprietary: 67, 6B, 6D, 6E, 6F with a nonzero SW2, 90 with a nonzero
      SW2, and all of 91 to 9F. The exact values are tested first. */
  lemma ProprietaryStatuses(r: RawStatus)
    ensures r.Identify() == StatusProprietary(r)
        <==> ((r.sw1 == 0x67 || r.sw1 == 0x6B || r.sw1 == 0x6D || r.sw1 == 0x6E || r.sw1 == 0x6F) && r.sw2 != 0)
             || (r.sw1 == 0x90 && r.sw2 != 0)
             || (0x91 <= r.sw1 <= 0x9F)
  {
    CombinedBytes(r);
    CheckValues(r);
  }

  /** 62XX and 63XX: warnings, with or without a change of non-volatile
      memory; 6201 and 6282 to 62FF are invalid. */
  lemma WarningStatuses(r: RawStatus)
    ensures r.Identify().Category() == StatusCategoryWarning
        <==> r.sw1 == 0x63 || (r.sw1 == 0x62 && r.sw2 != 0x01 && r.sw2 <= 0x81)
    ensures r.sw1 == 0x62 ==>
              r.Identify() == (if r.sw2 == 0x00 then StatusWarning(false, true, 0, r)
                               else if 0x02 <= r.sw2 <= 0x80 then StatusWarning(false, false, r.sw2, r)
                               else if r.sw2 == 0x81 then StatusWarning(false, false, 0, r)
                               else StatusInvalid(r))
    ensures r.sw1 == 0x63 ==> r.Identify() == StatusWarning(true, false, 0, r)
  {
    CombinedBytes(r);
    CheckValues(r);
  }

  /** No status word is classified as an execution or a checking error:
      those identifiers return invalid for every input. */
  lemma NoErrorCategories(r: RawStatus)
    ensures r.Identify().Category() != StatusCategoryExecError
    ensures r.Identify().Category() != StatusCategoryCheckError
    ensures IdentifyExecError(r).Category() == StatusCategoryInvalid
    ensures IdentifyCheckError(r).Category() == StatusCategoryInvalid
  {
  }

  /** Every status word is one of the four categories Identify produces. */
  lemma IdentifyCategories(r: RawStatus)
    ensures r.Identify().Category() == StatusCategoryInvalid
        <==> !((r.sw1 == 0x90 && r.sw2 == 0x00) || r.sw1 == 0x61)
             && r.Identify() != StatusProprietary(r)
             && !(r.sw1 == 0x63 || (r.sw1 == 0x62 && r.sw2 != 0x01 && r.sw2 <= 0x81))
  {
    NormalStatuses(r);
    ProprietaryStatuses(r);
    WarningStatuses(r);
    NoErrorCategories(r);
  }

  lemma ExampleStatuses()
    ensures RawStatus(0x90, 0x00).Identify() == StatusNormal(RawStatus(0x90, 0x00), true, 0)
    ensures RawStatus(0x61, 0x10).Identify() == StatusNormal(RawStatus(0x61, 0x10), false, 0x10)
    ensures RawStatus(0x6A, 0x82).Identify() == StatusInvalid(RawStatus(0x6A, 0x82))
    ensures RawStatus(0x6D, 0x00).Identify() == StatusInvalid(RawStatus(0x6D, 0x00))
    ensures RawStatus(0x6D, 0x01).Identify() == StatusProprietary(RawStatus(0x6D, 0x01))
    ensures RawStatus(0x62, 0x81).Identify() == StatusWarning(false, false, 0, RawStatus(0x62, 0x81))
  {
  }
}
