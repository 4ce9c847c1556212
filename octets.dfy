/** Fixed-width integers, the single-bit masks b1..b8, an Option type and the
    big-endian conversions of Go's encoding/binary that the codecs rely on. */
module Octets {

  type byte = bv8
  type uint16 = bv16
  type uint64 = bv64

  // bN is the mask of bit N, counting from 1 at the least significant end.
  const B1: byte := 0x01
  const B2: byte := 0x02
  const B3: byte := 0x04
  const B4: byte := 0x08
  const B5: byte := 0x10
  const B6: byte := 0x20
  const B7: byte := 0x40
  const B8: byte := 0x80

  const MaxUint64: uint64 := 0xFFFF_FFFF_FFFF_FFFF

  datatype Option<T> = None | Some(value: T)

  function Min(a: int, b: int): int { if a <= b then a else b }

  /** A run of n zero bytes: the contents of a freshly made Go byte slice. */
  function Zeros(n: nat): (z: seq<byte>)
    ensures |z| == n && forall i :: 0 <= i < n ==> z[i] == 0
  {
    seq(n, _ => 0)
  }

  /** binary.BigEndian.PutUint16 */
  function PutUint16(v: uint16): (r: seq<byte>)
    ensures |r| == 2
  {
    [(v >> 8) as byte, (v & 0xFF) as byte]
  }

  /** binary.BigEndian.Uint16: reads the first two bytes. */
  function Uint16(b: seq<byte>): uint16
    requires |b| >= 2
  {
    ((b[0] as uint16) << 8) | (b[1] as uint16)
  }

  /** The number binary.BigEndian.Uint16 reads. */
  lemma Uint16Value(b: seq<byte>)
    requires |b| >= 2
    ensures Uint16(b) as int == b[0] as int * 256 + b[1] as int
  {
    var x := Uint16(b);
    var hi, lo := b[0], b[1];
    assert (x >> 8) as int == hi as int by {
      assert x >> 8 == hi as uint16;
      WidenByte(hi);
    }
    assert (x & 0xFF) as int == lo as int by {
      assert x & 0xFF == lo as uint16;
      WidenByte(lo);
    }
    Uint16Split(x);
  }

  lemma Uint16Split(x: uint16)
    ensures x as int == (x >> 8) as int * 256 + (x & 0xFF) as int
  {
  }

  lemma WidenByte(a: byte)
    ensures (a as uint16) as int == a as int
  {
  }

  /** Two octets read as a uint16 and written back are unchanged. */
  lemma PutUint16OfUint16(b: seq<byte>)
    requires |b| == 2
    ensures PutUint16(Uint16(b)) == b
  {
    assert b == [b[0], b[1]];
    PutUint16OfBytes(b[0], b[1]);
  }

  lemma PutUint16OfBytes(a: byte, c: byte)
    ensures PutUint16(Uint16([a, c])) == [a, c]
  {
    var x := ((a as uint16) << 8) | (c as uint16);
    assert (x >> 8) as byte == a;
    assert (x & 0xFF) as byte == c;
  }

  lemma Uint16OfPutUint16(v: uint16)
    ensures Uint16(PutUint16(v)) == v
  {
  }

  /** binary.BigEndian.PutUint64 */
  function PutUint64(v: uint64): (r: seq<byte>)
    ensures |r| == 8
  {
    [ (v >> 56) as byte, ((v >> 48) & 0xFF) as byte, ((v >> 40) & 0xFF) as byte, ((v >> 32) & 0xFF) as byte,
      ((v >> 24) & 0xFF) as byte, ((v >> 16) & 0xFF) as byte, ((v >> 8) & 0xFF) as byte, (v & 0xFF) as byte ]
  }

  // ---------------------------------------------------------------------------
  // Big-endian octets of a number. Lengths are only counted and compared, never
  // masked or shifted, so they are modelled as bounded numbers, and their
  // octets by the arithmetic below rather than by bit-vector shifts.

  function Pow256(k: nat): (p: nat)
    ensures p >= 1
  {
    if k == 0 then 1 else 256 * Pow256(k - 1)
  }

  lemma Pow256Bounds()
    ensures Pow256(2) == 0x1_0000 && Pow256(7) == 0x0100_0000_0000_0000
    ensures Pow256(8) == 0x1_0000_0000_0000_0000
  {
  }

  /** The last k octets of the big-endian image of n: binary.BigEndian's
      PutUint16 for k = 2 and PutUint64 for k = 8, on a number below 256^k. */
  function BigEndian(n: nat, k: nat): (r: seq<byte>)
    ensures |r| == k
  {
    if k == 0 then [] else BigEndian(n / 256, k - 1) + [(n % 256) as byte]
  }

  /** The number big-endian octets bs stand for: binary.BigEndian's Uint16 and
      Uint64 on two and eight octets. */
  function BigEndianValue(bs: seq<byte>): (v: nat)
    ensures v < Pow256(|bs|)
  {
    if bs == [] then 0 else BigEndianValue(bs[..|bs| - 1]) * 256 + bs[|bs| - 1] as int
  }

  lemma ByteValue(x: nat)
    requires x < 256
    ensures (x as byte) as int == x
  {
    if x < 16 {
    } else if x < 32 {
    } else if x < 64 {
    } else if x < 128 {
    } else {
    }
  }

  /** The two are inverse: the octets of a number in range stand for it... */
  lemma {:induction false} BigEndianValueOf(n: nat, k: nat)
    requires n < Pow256(k)
    ensures BigEndianValue(BigEndian(n, k)) == n
  {
    if k > 0 {
      var r := BigEndian(n, k);
      assert r[..k - 1] == BigEndian(n / 256, k - 1);
      BigEndianValueOf(n / 256, k - 1);
      ByteValue(n % 256);
    }
  }

  /** ...and octets are the octets of the number they stand for. */
  lemma {:induction false} BigEndianOfValue(bs: seq<byte>)
    ensures BigEndian(BigEndianValue(bs), |bs|) == bs
  {
    if bs != [] {
      var init := bs[..|bs| - 1];
      var v := BigEndianValue(bs);
      assert v / 256 == BigEndianValue(init) && v % 256 == bs[|bs| - 1] as int;
      BigEndianOfValue(init);
      assert bs == init + [bs[|bs| - 1]];
    }
  }

  /** Leading zero octets do not change the value. */
  lemma {:induction false} BigEndianValueZeros(k: nat, c: seq<byte>)
    ensures BigEndianValue(Zeros(k) + c) == BigEndianValue(c)
  {
    if c == [] {
      ZerosValue(k);
      assert Zeros(k) + c == Zeros(k);
    } else {
      var init := c[..|c| - 1];
      assert (Zeros(k) + c)[..|Zeros(k) + c| - 1] == Zeros(k) + init;
      BigEndianValueZeros(k, init);
    }
  }

  lemma {:induction false} ZerosValue(k: nat)
    ensures BigEndianValue(Zeros(k)) == 0
  {
    if k > 0 {
      assert Zeros(k)[..k - 1] == Zeros(k - 1);
      ZerosValue(k - 1);
    }
  }

  /** The leading octet weighs 256^(k-1) in a value of k octets. */
  lemma {:induction false} BigEndianValueCons(x: byte, c: seq<byte>)
    ensures BigEndianValue([x] + c) == x as int * Pow256(|c|) + BigEndianValue(c)
  {
    if c != [] {
      var init := c[..|c| - 1];
      assert ([x] + c)[..|c|] == [x] + init;
      BigEndianValueCons(x, init);
      ScaleBy256(x as int, Pow256(|init|), BigEndianValue(init), c[|c| - 1] as int);
    }
  }

  lemma ScaleBy256(a: int, p: int, v: int, b: int)
    ensures (a * p + v) * 256 + b == a * (256 * p) + (v * 256 + b)
  {
  }

  /** Go's copy(dst[at:], src) when src fits: the octets land at at, the rest
      of dst is kept. */
  method CopyInto(dst: array<byte>, at: nat, src: seq<byte>)
    requires at + |src| <= dst.Length
    modifies dst
    ensures dst[at..at + |src|] == src
    ensures dst[..at] == old(dst[..at]) && dst[at + |src|..] == old(dst[at + |src|..])
  {
    forall i | 0 <= i < |src| {
      dst[at + i] := src[i];
    }
  }

  /** make([]byte, len(src)) followed by copy: a fresh buffer holding src. */
  method Duplicate(src: seq<byte>) returns (dst: seq<byte>)
    ensures dst == src
  {
    var buf := new byte[|src|];
    CopyInto(buf, 0, src);
    dst := buf[..];
  }
}
