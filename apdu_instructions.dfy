/** Instruction bytes INS. A few of the package's instruction constants (the
    list is data only), and the b1 flag that asks for the BER-TLV variant of
    an instruction. */
module ApduInstructions {
  import opened Octets

  const InstructionReadBinary: byte := 0xB0
  const InstructionReadRecordS: byte := 0xB2
  const InstructionSelect: byte := 0xA4
  const InstructionUpdateBinary: byte := 0xD6
  const InstructionPutData: byte := 0xDA

  /** InstructionSetBERTLV: b1 set, every other bit kept. */
  function InstructionSetBERTLV(ins: byte): (r: byte)
    ensures r & B1 == B1
    ensures r & 0xFE == ins & 0xFE
    ensures ins & B1 == B1 ==> r == ins
  {
    ins | B1
  }

  lemma SetBERTLVIdempotent(ins: byte)
    ensures InstructionSetBERTLV(InstructionSetBERTLV(ins)) == InstructionSetBERTLV(ins)
  {
  }

  lemma ExampleReadBinary()
    ensures InstructionSetBERTLV(InstructionReadBinary) == 0xB1
    ensures InstructionSetBERTLV(InstructionReadRecordS) == 0xB3
  {
  }
}
