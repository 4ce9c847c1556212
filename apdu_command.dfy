/** Command APDUs (ISO/IEC 7816-4 section 5.1): a four-byte header, then an
    optional Lc field, the command data and an optional Le field, each length
    field in the short (one byte) or the extended form. Responses: the data
    field followed by the two status bytes SW1-SW2. */
module ApduCommand {
  import opened Octets

  /** A Go uint16 holding an expected response length; only compared and
      encoded, so kept as a bounded number. */
  type ResponseLength = n: nat | n < 0x1_0000

  /** The most command data one command carries: more panics. */
  const MaxData: nat := 0x1_0000

  /** Command. The Class interface is modelled by the byte its ToClassByte
      gives, None being the nil interface. */
  datatype Command = Command(
    cls: Option<byte>,
    instruction: byte,
    p1: byte,
    p2: byte,
    data: seq<byte>,
    expectResponseData: bool,
    expectedResponseLength: ResponseLength)
  {
    /** No data in or out: only the header is sent. */
    predicate HeaderOnly() {
      |data| == 0 && !expectResponseData && expectedResponseLength == 0
    }

    /** Whether an Le field is sent. */
    predicate LePresent() {
      expectResponseData || expectedResponseLength > 0
    }

    predicate UsesExtendedLengths() {
      expectedResponseLength > 256 || (expectResponseData && expectedResponseLength == 0) || |data| > 256
    }

    /** ToBytes: the header, Lc, data and Le appended into a buffer made with
        the size of the four; the nil class becomes the invalid byte FF. */
    method ToBytes() returns (out: seq<byte>)
      requires |data| <= MaxData
      ensures out == Encoding(this)
    {
      var classByte: byte;
      if cls.None? {
        classByte := 0xFF;
      } else {
        classByte := cls.value;
      }
      var header := [classByte, instruction, p1, p2];
      assert header == Header(this);
      if |data| == 0 && !expectResponseData && expectedResponseLength == 0 {
        HeaderOnlyFields(this);
        return header;
      }
      var le: seq<byte> := [];
      var lc: seq<byte> := [];
      var useExtendedLengths := expectedResponseLength > 256 || (expectResponseData && expectedResponseLength == 0)
                                || |data| > 256;
      if expectResponseData || expectedResponseLength > 0 {
        if useExtendedLengths {
          le := BigEndian(expectedResponseLength, 2);
          if |data| == 0 {
            le := [0] + le;
          }
        } else if expectedResponseLength == 256 {
          le := [0];
        } else {
          le := [expectedResponseLength as byte];
        }
      }
      var dataLen := |data|;
      if dataLen != 0 {
        if useExtendedLengths {
          lc := Zeros(2);
          if dataLen < 0x1_0000 {
            lc := [0] + BigEndian(dataLen, 2);
          }
        } else {
          lc := Zeros(1);
          if dataLen < 256 {
            lc := [dataLen as byte];
          }
        }
      }
      assert le == LeField(this);
      assert lc == LcField(this);
      out := BuildOut(header, lc, data, le);
      EncodingOfFields(this, header, lc, le);
    }
  }

  lemma EncodingOfFields(c: Command, header: seq<byte>, lc: seq<byte>, le: seq<byte>)
    requires |c.data| <= MaxData
    requires header == Header(c) && lc == LcField(c) && le == LeField(c)
    ensures Encoding(c) == header + lc + c.data + le
  {
  }

  /** Without data in or out both length fields are absent. */
  lemma HeaderOnlyFields(c: Command)
    requires c.HeaderOnly()
    ensures Encoding(c) == Header(c)
  {
    assert LcField(c) == [] && LeField(c) == [];
  }

  /** The output buffer, made with the size of the four pieces and filled by
      appending them in turn to an empty slice of it. */
  method BuildOut(header: seq<byte>, lc: seq<byte>, data: seq<byte>, le: seq<byte>) returns (out: seq<byte>)
    ensures out == header + lc + data + le
  {
    var buf := new byte[|header| + |lc| + |data| + |le|];
    CopyInto(buf, 0, header);
    CopyInto(buf, |header|, lc);
    Extended(buf[..], header, lc);
    CopyInto(buf, |header| + |lc|, data);
    Extended(buf[..], header + lc, data);
    CopyInto(buf, |header| + |lc| + |data|, le);
    Extended(buf[..], header + lc + data, le);
    out := buf[..];
  }

  /** A piece written after a filled prefix extends it. */
  lemma Extended(s: seq<byte>, prefix: seq<byte>, piece: seq<byte>)
    requires |prefix| + |piece| <= |s|
    requires s[..|prefix|] == prefix && s[|prefix|..|prefix| + |piece|] == piece
    ensures s[..|prefix| + |piece|] == prefix + piece
  {
    assert s[..|prefix| + |piece|] == s[..|prefix|] + s[|prefix|..|prefix| + |piece|];
  }

  // ---------------------------------------------------------------------------
  // The encoding, field by field

  function ClassByte(c: Command): byte {
    if c.cls.None? then 0xFF else c.cls.value
  }

  function Header(c: Command): seq<byte> {
    [ClassByte(c), c.instruction, c.p1, c.p2]
  }

  /** A short length field: the number, 256 written as 00. */
  function ShortLength(n: nat): byte
    requires 1 <= n <= 256
  {
    if n == 256 then 0 else n as byte
  }

  /** The Le field: absent unless a response is expected; short, or extended
      (with the 00 marker when no Lc field precedes it). */
  function LeField(c: Command): seq<byte> {
    if !c.LePresent() then []
    else if c.UsesExtendedLengths() then (if |c.data| == 0 then [0] else []) + BigEndian(c.expectedResponseLength, 2)
    else ShortLengthField(c.expectedResponseLength)
  }

  function ShortLengthField(n: nat): seq<byte>
    requires 1 <= n <= 256
  {
    [ShortLength(n)]
  }

  /** The Lc field: absent without data; short; or extended, 00 and two
      octets, with 65536 octets of data written as 00 00. */
  function LcField(c: Command): seq<byte>
    requires |c.data| <= MaxData
  {
    if |c.data| == 0 then []
    else if c.UsesExtendedLengths() then (if |c.data| == MaxData then Zeros(2) else [0] + BigEndian(|c.data|, 2))
    else ShortLengthField(|c.data|)
  }

  /** The command as sent. */
  function Encoding(c: Command): seq<byte>
    requires |c.data| <= MaxData
  {
    Header(c) + LcField(c) + c.data + LeField(c)
  }

  // ---------------------------------------------------------------------------
  // Responses

  datatype Response = Response(data: seq<byte>, sw1sw2: uint16)

  datatype ResponseError = ResponseTooShort  // "APDU response must be at least 2 bytes long"

  /** What a response is sent as: its data, then SW1-SW2 big-endian. */
  function ResponseBytes(r: Response): seq<byte> {
    r.data + PutUint16(r.sw1sw2)
  }

  /** ResponseFromBytes: fewer than two bytes are an error; otherwise the last
      two are the status word and the others are copied into a fresh data
      buffer (left unset when empty). */
  method ResponseFromBytes(data: seq<byte>) returns (res: Response, err: Option<ResponseError>)
    ensures err.Some? <==> |data| < 2
    ensures err.Some? ==> res == Response([], 0)
    ensures err.None? ==> ResponseBytes(res) == data
    ensures err.None? ==> res.sw1sw2 as int == data[|data| - 2] as int * 256 + data[|data| - 1] as int
  {
    var total := |data|;
    if total < 2 {
      return Response([], 0), Some(ResponseTooShort);
    }
    res := Response([], Uint16(data[total - 2..]));
    Uint16Value(data[total - 2..]);
    if total > 2 {
      var body := Duplicate(data[..total - 2]);
      res := res.(data := body);
    }
    err := None;
    SplitStatus(data, res);
  }

  lemma SplitStatus(data: seq<byte>, res: Response)
    requires |data| >= 2 && res.data == data[..|data| - 2] && res.sw1sw2 == Uint16(data[|data| - 2..])
    ensures ResponseBytes(res) == data
  {
    var sw := data[|data| - 2..];
    PutUint16OfUint16(sw);
    assert data == data[..|data| - 2] + sw;
  }

  /** Distinct responses are sent as distinct bytes, so ResponseFromBytes gives
      back any response from its bytes. */
  lemma ResponseBytesInjective(r: Response, q: Response)
    requires ResponseBytes(r) == ResponseBytes(q)
    ensures r == q
  {
    var b := ResponseBytes(r);
    assert r.data == b[..|b| - 2] == q.data;
    assert PutUint16(r.sw1sw2) == b[|b| - 2..] == PutUint16(q.sw1sw2);
    Uint16OfPutUint16(r.sw1sw2);
    Uint16OfPutUint16(q.sw1sw2);
  }

  // ---------------------------------------------------------------------------
  // Sending

  datatype SendError =
    | NilTransport                    // "cannot send APDU command on nil transport interface"
    | TransportFailed                 // an error of the transport itself

  /** A transport's answer to one command. */
  datatype Exchange = Exchange(response: Response, err: Option<SendError>)

  /** Send: a nil transport is an error with an empty response; any other
      transport's answer is returned as it is. The transport is a function of
      the command, None standing for nil. */
  function Send(c: Command, t: Option<Command -> Exchange>): (r: Exchange)
    ensures t.None? ==> r == Exchange(Response([], 0), Some(NilTransport))
    ensures t.Some? ==> r == t.value(c)
  {
    if t.None? then Exchange(Response([], 0), Some(NilTransport)) else t.value(c)
  }
}
