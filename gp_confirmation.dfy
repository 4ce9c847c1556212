/** The confirmation in a card's response (GlobalPlatform Card Specification
    section 11.1.5): a receipt behind a length prefix, then confirmation data.
    The parser stops after the receipt, always reporting an error. */
module GpConfirmation {
  import opened Octets
  import ApduCommand

  datatype ResponseConfirmation = ResponseConfirmation(
    receipt: seq<byte>,
    confirmationCounter: uint16,
    sdUniqueData: seq<byte>,
    tokenIdentifier: seq<byte>,
    tokenDataDigest: seq<byte>)

  const NoConfirmation: ResponseConfirmation := ResponseConfirmation([], 0, [], [], [])

  datatype ConfirmationError =
    | ResponseTooShort                                  // "... must be at least 6 bytes"
    | ReceiptTooLong(receiptLen: nat, dataLen: nat)     // "cannot extract confirmation receipt of length ..."
    | NotImplemented                                    // "not implemented"

  /** The receipt length prefix: a first octet with b8 clear is the length,
      the receipt following it; with b8 set the second octet is the length,
      the receipt following that. */
  function ReceiptPrefix(data: seq<byte>): (r: (nat, nat))
    requires |data| >= 2
    ensures r.1 == (if data[0] & B8 == 0 then 1 else 2)
    ensures r.0 == (if data[0] & B8 == 0 then data[0] else data[1]) as nat
  {
    if data[0] & B8 == 0 then (data[0] as nat, 1) else (data[1] as nat, 2)
  }

  /** What the parser reports for response data. */
  function Decoded(data: seq<byte>): (ResponseConfirmation, ConfirmationError) {
    if |data| < 6 then (NoConfirmation, ResponseTooShort)
    else
      var (receiptLen, receiptStart) := ReceiptPrefix(data);
      if receiptLen > 0 && |data| < receiptStart + receiptLen + 5 then
        (NoConfirmation, ReceiptTooLong(receiptLen, |data|))
      else (NoConfirmation.(receipt := data[receiptStart..receiptStart + receiptLen]), NotImplemented)
  }

  /** Decoded, past the length check, for the prefix read. */
  lemma DecodedPrefix(data: seq<byte>, receiptLen: nat, receiptStart: nat)
    requires |data| >= 6 && ReceiptPrefix(data) == (receiptLen, receiptStart)
    ensures Decoded(data)
         == if receiptLen > 0 && |data| < receiptStart + receiptLen + 5 then
              (NoConfirmation, ReceiptTooLong(receiptLen, |data|))
            else (NoConfirmation.(receipt := data[receiptStart..receiptStart + receiptLen]), NotImplemented)
  {
  }

  /** ConfirmationFromResponse. */
  method ConfirmationFromResponse(inp: ApduCommand.Response) returns (res: ResponseConfirmation, err: Option<ConfirmationError>)
    ensures err.Some?
    ensures (res, err.value) == Decoded(inp.data)
  {
    res := NoConfirmation;
    var dataLen := |inp.data|;
    if dataLen < 6 {
      err := Some(ResponseTooShort);
      return;
    }
    var receiptLen := inp.data[0] as nat;
    var receiptStart := 1;
    if inp.data[0] & B8 != 0 {
      receiptLen := inp.data[1] as nat;
      receiptStart := 2;
    }
    assert ReceiptPrefix(inp.data) == (receiptLen, receiptStart);
    DecodedPrefix(inp.data, receiptLen, receiptStart);
    if receiptLen > 0 {
      if dataLen < receiptStart + receiptLen + 5 {
        err := Some(ReceiptTooLong(receiptLen, dataLen));
        return;
      }
      var receipt := Duplicate(inp.data[receiptStart..receiptStart + receiptLen]);
      res := res.(receipt := receipt);
    }
    assert res == NoConfirmation.(receipt := inp.data[receiptStart..receiptStart + receiptLen]);
    var confirmationStart := receiptStart + receiptLen;
    var confirmationCounterLen := inp.data[confirmationStart] as nat;
    err := Some(NotImplemented);
  }
}
