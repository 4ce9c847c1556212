/** BER-TLV tag identifier octets (ITU-T X.690 section 8.1.2) as the bertlv
    package encodes and decodes them: one octet for numbers up to 30, otherwise
    the marker 0b11111 followed by base-128 subsequent octets, most significant
    group first, b8 set on every subsequent octet but the last. Numbers are
    capped at 64 bits. */
module BerTag {
  import opened Octets
  import opened Streams

  const TagClassUniversal: byte := 0
  const TagClassApplication: byte := 1
  const TagClassContextSpecific: byte := 2
  const TagClassPrivate: byte := 3

  /** The class is a byte, as in the source, so that a class outside 0..3 can be
      represented (and rejected by ToBytes). The source's unused BigNumber
      field is not part of this model. */
  datatype Tag = Tag(cls: byte, constructed: bool, number: uint64)
  {
    /** Tag.ToBytes: the identifier octets of this tag, or an error for a class
        outside 0..3. The long form is built bit by bit from a 9-byte
        big-endian image of the number through a ReverseBitReader. */
    method ToBytes() returns (data: seq<byte>, err: Option<TagError>)
      ensures if ValidClass(cls) then err == None && data == TagBytes(this)
              else err == Some(InvalidClass) && data == []
    {
      KnownClass(cls);
      if !(cls == TagClassUniversal || cls == TagClassApplication || cls == TagClassContextSpecific || cls == TagClassPrivate) {
        return [], Some(InvalidClass);
      }
      var first: byte := cls << 6;
      if constructed {
        first := first | B6;
      }
      FirstOctetOf(this, first);
      if number <= 30 {
        first := first | number as byte;
        return [first], None;
      }
      first := first | 31;
      var formattedNumber := SubsequentOctets(number);
      data := [first] + formattedNumber;
      err := None;
    }

    /** Tag.Write: the identifier octets appended to w, or the ToBytes error
        with nothing written. A ByteWriter takes every octet, so the source's
        short-write error cannot arise. */
    method Write(w: ByteWriter) returns (err: Option<TagError>)
      modifies w
      ensures if ValidClass(cls) then err == None && w.written == old(w.written) + TagBytes(this)
              else err == Some(InvalidClass) && w.written == old(w.written)
    {
      var data, toBytesErr := ToBytes();
      if toBytesErr.Some? {
        return toBytesErr;
      }
      var n := w.Write(data);
      if n < |data| {
        assert false;
      }
      err := None;
    }
  }

  /** The long form part of Tag.ToBytes: the subsequent octets of number. */
  method SubsequentOctets(number: uint64) returns (formatted: seq<byte>)
    ensures formatted == Subsequent(Groups(number))
  {
    // leading zero byte so that the top group can be read seven bits at a time
    var raw := [0] + PutUint64(number);
    var requiredBytes := CountGroups(number);
    formatted := FormatNumber(raw, requiredBytes);
    FormattedGroups(number);
  }

  /** The first loop of Tag.ToBytes: the number of subsequent octets, found by
      growing upperLimit seven one bits at a time until it reaches the number. */
  method CountGroups(number: uint64) returns (requiredBytes: nat)
    ensures requiredBytes == |Groups(number)|
    ensures 1 <= requiredBytes <= 10
  {
    var upperLimit: uint64 := 0x7F;
    requiredBytes := 1;
    GroupsCountBound(number);
    while upperLimit < number
      invariant 1 <= requiredBytes <= |Groups(number)| <= 10
      invariant upperLimit == Ones(requiredBytes)
      decreases 10 - requiredBytes
    {
      GroupsExceed(number, upperLimit, requiredBytes);
      OnesNext(requiredBytes);
      requiredBytes := requiredBytes + 1;
      upperLimit := upperLimit << 7;
      upperLimit := upperLimit | 0x7F;
    }
    GroupsFit(number, upperLimit, requiredBytes);
  }

  /** The second loop of Tag.ToBytes: fills requiredBytes octets from the last
      to the first, seven bits each, read from raw by a ReverseBitReader; all
      octets but the last are marked by b8. */
  method FormatNumber(raw: seq<byte>, requiredBytes: nat) returns (formatted: seq<byte>)
    requires |raw| == 9 && 1 <= requiredBytes <= 10
    ensures formatted == Formatted(raw, requiredBytes)
  {
    var formattedNumber := new byte[requiredBytes](_ => 0);
    var bits := new ReverseBitReader(raw);
    var i := requiredBytes - 1;
    while i >= 0
      invariant -1 <= i < requiredBytes
      invariant bits.data == raw && bits.bitindex < 8
      invariant bits.Position() == 7 * (requiredBytes - 1 - i)
      invariant forall k :: i < k < requiredBytes ==> formattedNumber[k] == Formatted(raw, requiredBytes)[k]
      invariant forall k :: 0 <= k <= i ==> formattedNumber[k] == 0
    {
      if i != requiredBytes - 1 {
        // every subsequent octet but the last is marked by b8
        formattedNumber[i] := B8;
      }
      formattedNumber[i] := PackGroup(bits, formattedNumber[i], raw, 7 * (requiredBytes - 1 - i));
      i := i - 1;
    }
    formatted := formattedNumber[..];
  }

  /** The inner loop of FormatNumber: ORs the next seven bits of the reader
      into octet, least significant first. */
  method PackGroup(bits: ReverseBitReader, octet: byte, ghost raw: seq<byte>, ghost p: nat) returns (packed: byte)
    requires bits.data == raw && |raw| == 9 && bits.bitindex < 8 && bits.Position() == p && p + 7 <= 72
    modifies bits
    ensures bits.bitindex < 8 && bits.Position() == p + 7
    ensures packed == octet | PackedBits(raw, p, 7)
  {
    packed := octet;
    var j := 0;
    while j < 7
      invariant 0 <= j <= 7 && bits.bitindex < 8 && bits.Position() == p + j
      invariant packed == octet | PackedBits(raw, p, j)
    {
      var nextBit := bits.ReadBit();
      PackInto(octet, packed, raw, p, j, nextBit);
      packed := packed | (nextBit << j);
      j := j + 1;
    }
  }

  /** What FormatNumber produces: octet k holds the stream bits
      7(requiredBytes-1-k) .. 7(requiredBytes-1-k)+6, with b8 on all but the last. */
  function Formatted(raw: seq<byte>, requiredBytes: nat): (r: seq<byte>)
    requires |raw| == 9 && requiredBytes <= 10
    ensures |r| == requiredBytes
  {
    seq(requiredBytes, k requires 0 <= k < requiredBytes =>
      (if k != requiredBytes - 1 then B8 else 0) | PackedBits(raw, 7 * (requiredBytes - 1 - k), 7))
  }

  /** Read back from the 9-byte image, the formatted octets are the subsequent
      octets of the number's groups. */
  lemma FormattedGroups(n: uint64)
    ensures |Groups(n)| <= 10
    ensures Formatted([0] + PutUint64(n), |Groups(n)|) == Subsequent(Groups(n))
  {
    GroupsCountBound(n);
    var gs := Groups(n);
    var raw := [0] + PutUint64(n);
    forall k | 0 <= k < |gs|
      ensures Formatted(raw, |gs|)[k] == Subsequent(gs)[k]
    {
      FormattedAt(n, gs, raw, k);
    }
  }

  lemma FormattedAt(n: uint64, gs: seq<byte>, raw: seq<byte>, k: nat)
    requires gs == Groups(n) && raw == [0] + PutUint64(n) && |gs| <= 10 && k < |gs|
    ensures Formatted(raw, |gs|)[k] == Subsequent(gs)[k]
  {
    var g := |gs| - 1 - k;
    RawGroup(n, g);
    GroupAt(n, g);
    var bits := PackedBits(raw, 7 * g, 7);
    assert gs[k] == bits;
  }

  datatype TagError =
    | InvalidClass    // ToBytes: the class is outside 0..3
    | ReadFailed      // TagFromReader: the first octet could not be read
    | Truncated       // the input ended before a subsequent octet with b8 clear
    | NotImplemented  // the number does not fit in 64 bits

  /** What TagFromReader returns: octets consumed, the tag, the error. */
  datatype TagRead = TagRead(readTotal: nat, tag: Tag, err: Option<TagError>)

  predicate ValidClass(cls: byte) {
    cls <= 3
  }

  /** The four named classes are exactly the classes 0..3. */
  lemma KnownClass(cls: byte)
    ensures (cls == TagClassUniversal || cls == TagClassApplication || cls == TagClassContextSpecific
             || cls == TagClassPrivate) <==> ValidClass(cls)
  {
  }

  // ---------------------------------------------------------------------------
  // Base-128 groups

  /** The base-128 digits of n, most significant first, with no leading zero digit. */
  function Groups(n: uint64): (g: seq<byte>)
    ensures 1 <= |g|
    ensures forall k :: 0 <= k < |g| ==> g[k] < 0x80
    decreases n
  {
    if n < 0x80 then [n as byte] else Groups(n >> 7) + [(n & 0x7F) as byte]
  }

  /** The subsequent octets for groups gs: b8 is set on all but the last. */
  function Subsequent(gs: seq<byte>): (r: seq<byte>)
    ensures |r| == |gs|
  {
    seq(|gs|, k requires 0 <= k < |gs| => if k < |gs| - 1 then gs[k] | B8 else gs[k])
  }

  /** The value of upperLimit after k - 1 rounds of ToBytes's counting loop:
      k groups of seven one bits, wrapping at 64 bits as uint64 does. */
  function Ones(k: nat): uint64
    requires k >= 1
  {
    if k == 1 then 0x7F else (Ones(k - 1) << 7) | 0x7F
  }

  // ---------------------------------------------------------------------------
  // The encoding

  /** The leading identifier octet: class in b8-b7, constructed in b6, and the
      number itself or the long-form marker 31 in b5-b1. */
  function FirstOctet(t: Tag): byte
    requires ValidClass(t.cls)
  {
    (t.cls << 6) | (if t.constructed then B6 else 0) | (if t.number <= 30 then t.number as byte else 31)
  }

  lemma FirstOctetOf(t: Tag, hi: byte)
    requires ValidClass(t.cls) && hi == (t.cls << 6) | (if t.constructed then B6 else 0)
    ensures t.number <= 30 ==> FirstOctet(t) == hi | t.number as byte
    ensures t.number > 30 ==> FirstOctet(t) == hi | 31
  {
  }

  /** The identifier octets of a tag with a valid class. */
  function TagBytes(t: Tag): (r: seq<byte>)
    requires ValidClass(t.cls)
  {
    if t.number <= 30 then [FirstOctet(t)] else [FirstOctet(t)] + Subsequent(Groups(t.number))
  }

  // ---------------------------------------------------------------------------
  // The bit stream ToBytes reads

  /** The bit at position p of data, counting from the least significant bit
      of its last byte, as ReverseBitReader.ReadBit returns it: b1 or 0. */
  function StreamBit(data: seq<byte>, p: nat): byte
    requires p < 8 * |data|
  {
    (data[|data| - 1 - p / 8] >> (p % 8)) & 1
  }

  /** The j stream bits of data from position p on, packed least significant first. */
  function PackedBits(data: seq<byte>, p: nat, j: nat): byte
    requires j <= 8 && p + j <= 8 * |data|
  {
    if j == 0 then 0 else PackedBits(data, p, j - 1) | (StreamBit(data, p + j - 1) << (j - 1))
  }

  /** The same seven bits written out. */
  function Pack7(data: seq<byte>, p: nat): byte
    requires p + 7 <= 8 * |data|
  {
    StreamBit(data, p) | (StreamBit(data, p + 1) << 1) | (StreamBit(data, p + 2) << 2) | (StreamBit(data, p + 3) << 3) |
    (StreamBit(data, p + 4) << 4) | (StreamBit(data, p + 5) << 5) | (StreamBit(data, p + 6) << 6)
  }

  /** Bits 7g..7g+6 of n: its base-128 digit g, counted from the least
      significant end. */
  function GroupLE(n: uint64, g: nat): byte
    requires g <= 9
  {
    ((if g == 0 then n else if g == 1 then n >> 7 else if g == 2 then n >> 14 else if g == 3 then n >> 21
      else if g == 4 then n >> 28 else if g == 5 then n >> 35 else if g == 6 then n >> 42 else if g == 7 then n >> 49
      else if g == 8 then n >> 56 else n >> 63) & 0x7F) as byte
  }

  /** The source's bit reader over a byte slice: it hands out the bits of data
      from the least significant bit of the last byte upwards. */
  class ReverseBitReader {
    const data: seq<byte>
    var index: nat
    var bitindex: nat

    /** How many bits have been read. */
    ghost function Position(): nat
      reads this
    {
      8 * index + bitindex
    }

    constructor (data: seq<byte>)
      ensures this.data == data && index == 0 && bitindex == 0
    {
      this.data := data;
      index := 0;
      bitindex := 0;
    }

    /** ReadBit. The requires is the slice bound the source relies on: with
        index at len(data) or beyond, data[maxIndex-index] would panic. */
    method ReadBit() returns (bit: byte)
      requires bitindex < 8 && index < |data|
      modifies this
      ensures bit == StreamBit(data, old(Position()))
      ensures bitindex < 8 && Position() == old(Position()) + 1
    {
      DivMod8(index, bitindex);
      BitTest(data[|data| - 1 - index], bitindex);
      var maxIndex := |data| - 1;
      var currentByte := data[maxIndex - index];
      var b := currentByte & (B1 << bitindex);
      bitindex := bitindex + 1;
      if bitindex > 7 {
        bitindex := 0;
        index := index + 1;
      }
      if b > 0 {
        return B1;
      }
      return 0;
    }
  }

  // ---------------------------------------------------------------------------
  // The decoding

  /** The number of subsequent octets up to and including the first one with
      b8 clear, or None when every octet of s has b8 set. */
  function SubsequentSpan(s: seq<byte>): (r: Option<nat>)
    ensures r.Some? ==> 1 <= r.value <= |s|
  {
    if s == [] then None
    else if s[0] & B8 == 0 then Some(1)
    else match SubsequentSpan(s[1..])
      case None => None
      case Some(m) => Some(m + 1)
  }

  /** The seven payload bits of every octet. */
  function LowBits(s: seq<byte>): (r: seq<byte>)
    ensures |r| == |s|
  {
    seq(|s|, k requires 0 <= k < |s| => s[k] & 0x7F)
  }

  /** The value after the first i rounds of TagFromReader's assembling loop
      over groups bs, most significant first: round j ORs in the group j
      places from the end, shifted left by 7j bits. */
  function Assembled(bs: seq<byte>, i: nat): uint64
    requires i <= |bs|
  {
    if i == 0 then 0 else Assembled(bs, i - 1) | Shl7(bs[|bs| - i] as uint64, i - 1)
  }

  /** x shifted left by 7i bits, bits beyond 64 dropped: the source's
      x << (i * 7) on a uint64, written as i shifts by seven. */
  function Shl7(x: uint64, i: nat): uint64
  {
    if i == 0 then x else Shl7(x, i - 1) << 7
  }

  /** What TagFromReader returns when the remaining input is s. */
  function DecodeTag(s: seq<byte>): TagRead
  {
    if s == [] then TagRead(0, Tag(0, false, 0), Some(ReadFailed))
    else
      var head := Tag((s[0] & (B8 | B7)) >> 6, (s[0] & B6) > 0, 0);
      if s[0] & 31 < 31 then TagRead(1, head.(number := (s[0] & 31) as uint64), None)
      else match SubsequentSpan(s[1..])
        case None => TagRead(|s|, head, Some(Truncated))
        case Some(m) =>
          var bitSets := LowBits(s[1..1 + m]);
          if m <= 10 && (m < 10 || bitSets[0] < 2) then TagRead(1 + m, head.(number := Assembled(bitSets, |bitSets|)), None)
          else TagRead(1 + m, head, Some(NotImplemented))
  }

  /** TagFromReader: decodes one tag from the stream. */
  method TagFromReader(data: ByteReader) returns (readTotal: nat, tag: Tag, err: Option<TagError>)
    requires data.Valid()
    modifies data
    ensures data.Valid()
    ensures TagRead(readTotal, tag, err) == DecodeTag(old(data.Remaining()))
    ensures data.pos == old(data.pos) + readTotal
  {
    ghost var s := data.Remaining();
    var firstByteDst := new byte[1](_ => 0);
    var n, eof := data.Read(firstByteDst);
    readTotal := n;
    tag := Tag(0, false, 0);
    if eof {
      err := Some(ReadFailed);
      return;
    }
    var firstByte := firstByteDst[0];
    assert firstByte == s[0];
    tag := tag.(cls := (firstByte & (B8 | B7)) >> 6, constructed := (firstByte & B6) > 0);
    var number := firstByte & 31;
    if number < 31 {
      tag := tag.(number := number as uint64);
      err := None;
      return;
    }
    var got, bitSets, truncated := ReadSubsequent(data);
    readTotal := readTotal + got;
    if truncated {
      err := Some(Truncated);
      return;
    }
    assert s[1..][..got] == s[1..1 + got];
    if |bitSets| <= 10 && (|bitSets| < 10 || bitSets[0] < 2) {
      var u64 := AssembleNumber(bitSets);
      tag := tag.(number := u64);
      err := None;
    } else {
      err := Some(NotImplemented);
    }
  }

  /** The reading loop of TagFromReader: reads one octet at a time, keeping
      its low seven bits, until an octet with b8 clear or the end of input. */
  method ReadSubsequent(data: ByteReader) returns (got: nat, bitSets: seq<byte>, truncated: bool)
    requires data.Valid()
    modifies data
    ensures data.Valid() && data.pos == old(data.pos) + got
    ensures SubsequentSpan(old(data.Remaining())) == if truncated then None else Some(got)
    ensures if truncated then got == |old(data.Remaining())| else bitSets == LowBits(old(data.Remaining())[..got])
  {
    ghost var s := data.Remaining();
    got := 0;
    bitSets := [];
    var dst := new byte[1](_ => 0);
    while true
      invariant data.Valid() && got == |bitSets| <= |s| && s == data.data[old(data.pos)..]
      invariant data.pos == old(data.pos) + got
      invariant forall k :: 0 <= k < got ==> bitSets[k] == s[k] & 0x7F && s[k] & B8 != 0
      decreases |data.data| - data.pos
    {
      dst[0] := 0;
      ghost var before := data.pos;
      var n, readErr := data.Read(dst);
      got := got + n;
      if readErr {
        SpanNone(s);
        return got, bitSets, true;
      }
      assert dst[0] == s[got - 1] by {
        assert dst[..1][0] == data.data[before..data.pos][0];
      }
      var newBits := dst[0] & 0x7F;
      bitSets := bitSets + [newBits];
      if (dst[0] & B8) == 0 {
        SpanFound(s, got - 1);
        LowBitsPrefix(s, got, bitSets);
        return got, bitSets, false;
      }
    }
  }

  lemma LowBitsPrefix(s: seq<byte>, m: nat, bs: seq<byte>)
    requires m <= |s| && |bs| == m && forall k :: 0 <= k < m ==> bs[k] == s[k] & 0x7F
    ensures bs == LowBits(s[..m])
  {
  }

  /** The assembling loop of TagFromReader: ORs in group len-1-i shifted left
      by 7i bits, for i from 0 up. */
  method AssembleNumber(bitSets: seq<byte>) returns (u64: uint64)
    ensures u64 == Assembled(bitSets, |bitSets|)
  {
    u64 := 0;
    var i := 0;
    while i < |bitSets|
      invariant 0 <= i <= |bitSets|
      invariant u64 == Assembled(bitSets, i)
    {
      AssembledNext(bitSets, i);
      u64 := u64 | Shl7(bitSets[|bitSets| - 1 - i] as uint64, i);
      i := i + 1;
    }
  }

  /** One more round of the assembling loop. */
  lemma AssembledNext(bs: seq<byte>, i: nat)
    requires i < |bs|
    ensures Assembled(bs, i + 1) == Assembled(bs, i) | Shl7(bs[|bs| - 1 - i] as uint64, i)
  {
  }

  // ---------------------------------------------------------------------------
  // Shifts by multiples of seven. The amounts are bounded, so each lemma is a
  // case analysis over the possible group positions.

  lemma PackedStep(data: seq<byte>, p: nat, j: nat)
    requires 1 <= j <= 8 && p + j <= 8 * |data|
    ensures PackedBits(data, p, j) == PackedBits(data, p, j - 1) | (StreamBit(data, p + j - 1) << (j - 1))
  {
  }

  /** One step of PackGroup: ORing in the next bit extends the packed bits. */
  lemma PackInto(o: byte, acc: byte, data: seq<byte>, p: nat, j: nat, bit: byte)
    requires j < 7 && p + j < 8 * |data|
    requires acc == o | PackedBits(data, p, j) && bit == StreamBit(data, p + j)
    ensures acc | (bit << j) == o | PackedBits(data, p, j + 1)
  {
    PackedStep(data, p, j + 1);
  }

  lemma PackedBitsSeven(data: seq<byte>, p: nat)
    requires p + 7 <= 8 * |data|
    ensures PackedBits(data, p, 7) == Pack7(data, p)
  {
    PackedStep(data, p, 7);
    PackedStep(data, p, 6);
    PackedStep(data, p, 5);
    PackedStep(data, p, 4);
    PackedStep(data, p, 3);
    PackedStep(data, p, 2);
    PackedStep(data, p, 1);
  }

  lemma DivMod8(q: nat, r: nat)
    requires r < 8
    ensures (8 * q + r) / 8 == q && (8 * q + r) % 8 == r
  {
  }

  lemma BitTest(x: byte, b: nat)
    requires b < 8
    ensures (x & (B1 << b) != 0) == ((x >> b) & 1 == 1)
  {
  }

  /** Reading seven bits from position 7g of the 9-byte image yields bits
      7g..7g+6 of the number; bits 64 and up come from the leading zero byte.
      Each group position is its own lemma to keep the bit-vector goals small. */
  lemma RawGroup(n: uint64, g: nat)
    requires g <= 9
    ensures PackedBits([0] + PutUint64(n), 7 * g, 7) == GroupLE(n, g)
  {
    if g == 0 { RawGroup0(n); } else if g == 1 { RawGroup1(n); } else if g == 2 { RawGroup2(n); }
    else if g == 3 { RawGroup3(n); } else if g == 4 { RawGroup4(n); } else if g == 5 { RawGroup5(n); }
    else if g == 6 { RawGroup6(n); } else if g == 7 { RawGroup7(n); } else if g == 8 { RawGroup8(n); }
    else { RawGroup9(n); }
  }

  lemma RawGroup0(n: uint64)
    ensures PackedBits([0] + PutUint64(n), 0, 7) == GroupLE(n, 0)
  {
    PackedBitsSeven([0] + PutUint64(n), 0);
  }

  lemma RawGroup1(n: uint64)
    ensures PackedBits([0] + PutUint64(n), 7, 7) == GroupLE(n, 1)
  {
    PackedBitsSeven([0] + PutUint64(n), 7);
  }

  lemma RawGroup2(n: uint64)
    ensures PackedBits([0] + PutUint64(n), 14, 7) == GroupLE(n, 2)
  {
    PackedBitsSeven([0] + PutUint64(n), 14);
  }

  lemma RawGroup3(n: uint64)
    ensures PackedBits([0] + PutUint64(n), 21, 7) == GroupLE(n, 3)
  {
    PackedBitsSeven([0] + PutUint64(n), 21);
  }

  lemma RawGroup4(n: uint64)
    ensures PackedBits([0] + PutUint64(n), 28, 7) == GroupLE(n, 4)
  {
    PackedBitsSeven([0] + PutUint64(n), 28);
  }

  lemma RawGroup5(n: uint64)
    ensures PackedBits([0] + PutUint64(n), 35, 7) == GroupLE(n, 5)
  {
    PackedBitsSeven([0] + PutUint64(n), 35);
  }

  lemma RawGroup6(n: uint64)
    ensures PackedBits([0] + PutUint64(n), 42, 7) == GroupLE(n, 6)
  {
    PackedBitsSeven([0] + PutUint64(n), 42);
  }

  lemma RawGroup7(n: uint64)
    ensures PackedBits([0] + PutUint64(n), 49, 7) == GroupLE(n, 7)
  {
    PackedBitsSeven([0] + PutUint64(n), 49);
  }

  lemma RawGroup8(n: uint64)
    ensures PackedBits([0] + PutUint64(n), 56, 7) == GroupLE(n, 8)
  {
    PackedBitsSeven([0] + PutUint64(n), 56);
  }

  lemma RawGroup9(n: uint64)
    ensures PackedBits([0] + PutUint64(n), 63, 7) == GroupLE(n, 9)
  {
    PackedBitsSeven([0] + PutUint64(n), 63);
  }

  lemma GroupLEShift(n: uint64, g: nat)
    requires g <= 8
    ensures GroupLE(n >> 7, g) == GroupLE(n, g + 1)
  {
    if g == 0 {} else if g == 1 {} else if g == 2 {} else if g == 3 {} else if g == 4 {}
    else if g == 5 {} else if g == 6 {} else if g == 7 {} else {}
  }

  /** Group g, counted from the least significant end, is bits 7g..7g+6 of n. */
  lemma {:induction false} GroupAt(n: uint64, g: nat)
    requires g < |Groups(n)|
    ensures g <= 9
    ensures Groups(n)[|Groups(n)| - 1 - g] == GroupLE(n, g)
    decreases n
  {
    GroupsCountBound(n);
    if g > 0 {
      assert n >= 0x80;
      var top := Groups(n >> 7);
      assert Groups(n) == top + [(n & 0x7F) as byte];
      assert Groups(n)[|Groups(n)| - 1 - g] == top[|top| - 1 - (g - 1)];
      GroupAt(n >> 7, g - 1);
      GroupLEShift(n, g - 1);
    }
  }

  /** One more group: with lo and hi the limits for k - 1 and k groups, n
      drops below lo by losing its last group exactly when it is below hi. */
  lemma OnesShift(n: uint64, k: nat, lo: uint64, hi: uint64)
    requires 2 <= k <= 10 && lo == Ones(k - 1) && hi == Ones(k)
    ensures (n >> 7) <= lo <==> n <= hi
  {
    if k == 2 { OnesShift2(n, k, lo, hi); }
    else if k == 3 { OnesShift3(n, k, lo, hi); }
    else if k == 4 { OnesShift4(n, k, lo, hi); }
    else if k == 5 { OnesShift5(n, k, lo, hi); }
    else if k == 6 { OnesShift6(n, k, lo, hi); }
    else if k == 7 { OnesShift7(n, k, lo, hi); }
    else if k == 8 { OnesShift8(n, k, lo, hi); }
    else if k == 9 { OnesShift9(n, k, lo, hi); }
    else { OnesShift10(n, k, lo, hi); }
  }

  lemma OnesShift2(n: uint64, k: nat, lo: uint64, hi: uint64)
    requires k == 2 && lo == Ones(k - 1) && hi == Ones(k)
    ensures (n >> 7) <= lo <==> n <= hi
  {
    assert lo == 0x7F && hi == 0x3FFF;
  }

  lemma OnesShift3(n: uint64, k: nat, lo: uint64, hi: uint64)
    requires k == 3 && lo == Ones(k - 1) && hi == Ones(k)
    ensures (n >> 7) <= lo <==> n <= hi
  {
    assert lo == 0x3FFF && hi == 0x1F_FFFF;
  }

  lemma OnesShift4(n: uint64, k: nat, lo: uint64, hi: uint64)
    requires k == 4 && lo == Ones(k - 1) && hi == Ones(k)
    ensures (n >> 7) <= lo <==> n <= hi
  {
    assert lo == 0x1F_FFFF && hi == 0xFFF_FFFF;
  }

  lemma OnesShift5(n: uint64, k: nat, lo: uint64, hi: uint64)
    requires k == 5 && lo == Ones(k - 1) && hi == Ones(k)
    ensures (n >> 7) <= lo <==> n <= hi
  {
    assert lo == 0xFFF_FFFF && hi == 0x7_FFFF_FFFF;
  }

  lemma OnesShift6(n: uint64, k: nat, lo: uint64, hi: uint64)
    requires k == 6 && lo == Ones(k - 1) && hi == Ones(k)
    ensures (n >> 7) <= lo <==> n <= hi
  {
    assert lo == 0x7_FFFF_FFFF && hi == 0x3FF_FFFF_FFFF;
  }

  lemma OnesShift7(n: uint64, k: nat, lo: uint64, hi: uint64)
    requires k == 7 && lo == Ones(k - 1) && hi == Ones(k)
    ensures (n >> 7) <= lo <==> n <= hi
  {
    assert lo == 0x3FF_FFFF_FFFF && hi == 0x1_FFFF_FFFF_FFFF;
  }

  lemma OnesShift8(n: uint64, k: nat, lo: uint64, hi: uint64)
    requires k == 8 && lo == Ones(k - 1) && hi == Ones(k)
    ensures (n >> 7) <= lo <==> n <= hi
  {
    assert lo == 0x1_FFFF_FFFF_FFFF && hi == 0xFF_FFFF_FFFF_FFFF;
  }

  lemma OnesShift9(n: uint64, k: nat, lo: uint64, hi: uint64)
    requires k == 9 && lo == Ones(k - 1) && hi == Ones(k)
    ensures (n >> 7) <= lo <==> n <= hi
  {
    assert lo == 0xFF_FFFF_FFFF_FFFF && hi == 0x7FFF_FFFF_FFFF_FFFF;
  }

  lemma OnesShift10(n: uint64, k: nat, lo: uint64, hi: uint64)
    requires k == 10 && lo == Ones(k - 1) && hi == Ones(k)
    ensures (n >> 7) <= lo <==> n <= hi
  {
    assert lo == 0x7FFF_FFFF_FFFF_FFFF && hi == MaxUint64;
  }

  lemma OnesNext(k: nat)
    requires k >= 1
    ensures Ones(k + 1) == (Ones(k) << 7) | 0x7F
  {
  }

  /** A number no larger than upperLimit == Ones(k) needs at most k groups. */
  lemma {:induction false} GroupsFit(n: uint64, upperLimit: uint64, k: nat)
    requires 1 <= k <= 10 && upperLimit == Ones(k) && !(upperLimit < n)
    ensures |Groups(n)| <= k
    decreases k
  {
    if n >= 0x80 {
      assert k != 1;
      var lower := Ones(k - 1);
      OnesShift(n, k, lower, upperLimit);
      GroupsFit(n >> 7, lower, k - 1);
    }
  }

  /** A number larger than upperLimit == Ones(k) needs more than k groups. */
  lemma {:induction false} GroupsExceed(n: uint64, upperLimit: uint64, k: nat)
    requires 1 <= k <= 10 && upperLimit == Ones(k) && upperLimit < n
    ensures k < |Groups(n)|
    decreases k
  {
    AboveOnes(n, upperLimit, k);
    if k > 1 {
      var lower := Ones(k - 1);
      OnesShift(n, k, lower, upperLimit);
      GroupsExceed(n >> 7, lower, k - 1);
    }
  }

  /** Every Ones(k) is at least 0x7F, so a number above it has two groups or more. */
  lemma AboveOnes(n: uint64, upperLimit: uint64, k: nat)
    requires 1 <= k && upperLimit == Ones(k) && upperLimit < n
    ensures n >= 0x80
  {
    if k > 1 {
      var lower := Ones(k - 1);
      AboveShifted(n, lower, upperLimit);
    }
  }

  lemma AboveShifted(n: uint64, x: uint64, y: uint64)
    requires y == (x << 7) | 0x7F && y < n
    ensures n >= 0x80
  {
  }

  /** Every 64-bit number has at most ten groups. */
  lemma GroupsCountBound(n: uint64)
    ensures |Groups(n)| <= 10
  {
    assert Ones(10) == MaxUint64;
    GroupsFit(n, Ones(10), 10);
  }

  lemma {:induction false} SpanNone(s: seq<byte>)
    requires forall k :: 0 <= k < |s| ==> s[k] & B8 != 0
    ensures SubsequentSpan(s) == None
  {
    if s != [] {
      SpanNone(s[1..]);
    }
  }

  lemma {:induction false} SpanFound(s: seq<byte>, j: nat)
    requires j < |s| && s[j] & B8 == 0
    requires forall k :: 0 <= k < j ==> s[k] & B8 != 0
    ensures SubsequentSpan(s) == Some(j + 1)
  {
    if j > 0 {
      SpanFound(s[1..], j - 1);
    }
  }
}
