/** The receipt the confirmation parser extracts, and the guards that keep each
    of its reads in bounds. */
module GpConfirmationProps {
  import opened Octets
  import opened GpConfirmation

  /** Fewer than six octets give nothing. */
  lemma TooShort(data: seq<byte>)
    requires |data| < 6
    ensures Decoded(data) == (NoConfirmation, ResponseTooShort)
  {
  }

  /** Past the guards, the receipt is the octets after the prefix, and the
      confirmation data that would follow start inside the response. */
  lemma ReceiptInBounds(data: seq<byte>)
    requires |data| >= 6
    ensures var (receiptLen, receiptStart) := ReceiptPrefix(data);
      && (Decoded(data).1 == NotImplemented <==> receiptLen == 0 || receiptStart + receiptLen + 5 <= |data|)
      && (Decoded(data).1 == NotImplemented ==>
            Decoded(data).0.receipt == data[receiptStart..receiptStart + receiptLen]
            && receiptStart + receiptLen < |data|)
  {
  }

  /** A receipt written with its length prefix: one octet below 128, otherwise
      81 and the length. */
  function ReceiptField(receipt: seq<byte>): seq<byte>
    requires |receipt| <= 255
  {
    if |receipt| < 128 then [|receipt| as byte] + receipt else [0x81, |receipt| as byte] + receipt
  }

  /** The parser recovers any receipt of up to 255 octets that is followed by
      at least five more octets. */
  lemma ReceiptRoundTrip(receipt: seq<byte>, rest: seq<byte>)
    requires |receipt| <= 255 && |rest| >= 5
    ensures Decoded(ReceiptField(receipt) + rest) == (NoConfirmation.(receipt := receipt), NotImplemented)
  {
    var data := ReceiptField(receipt) + rest;
    ByteValue(|receipt|);
    if |receipt| < 128 {
      assert data[0] == |receipt| as byte;
      assert data[1..1 + |receipt|] == receipt;
    } else {
      assert data[1] == |receipt| as byte;
      assert data[2..2 + |receipt|] == receipt;
    }
  }
}
