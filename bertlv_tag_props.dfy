/** What the tag codec promises: decoding the identifier octets of any tag with
    a valid class gives the tag back and consumes exactly those octets, and the
    examples of the package's tests. */
module BerTagProps {
  import opened Octets
  import opened BerTag

  // ---------------------------------------------------------------------------
  // The round trip

  /** TagFromReader undoes Tag.ToBytes, whatever follows the identifier octets. */
  lemma DecodeTagBytes(t: Tag, rest: seq<byte>)
    requires ValidClass(t.cls)
    ensures DecodeTag(TagBytes(t) + rest) == TagRead(|TagBytes(t)|, t, None)
  {
    var f := FirstOctet(t);
    var s := TagBytes(t) + rest;
    assert s[0] == f;
    FirstOctetFields(t, f);
    if t.number > 30 {
      var gs := Groups(t.number);
      GroupsCountBound(t.number);
      assert s[1..] == Subsequent(gs) + rest;
      SpanOfSubsequent(gs, rest);
      assert s[1..][..|gs|] == Subsequent(gs);
      assert s[1..1 + |gs|] == Subsequent(gs);
      SubsequentLowBits(gs);
      if |gs| == 10 {
        TopGroupSmall(t.number);
      }
      GroupsAssemble(t.number);
    }
  }

  /** The class, the constructed flag and the low five bits decode from the
      leading octet as they were put there. */
  lemma FirstOctetFields(t: Tag, f: byte)
    requires ValidClass(t.cls) && f == FirstOctet(t)
    ensures (f & (B8 | B7)) >> 6 == t.cls
    ensures ((f & B6) > 0) == t.constructed
    ensures t.number <= 30 ==> f & 31 < 31 && (f & 31) as uint64 == t.number
    ensures t.number > 30 ==> f & 31 == 31
  {
    var hi: byte := (t.cls << 6) | (if t.constructed then B6 else 0);
    HighBits(t.cls, t.constructed, hi);
    if t.number <= 30 {
      LowNumber(hi, t.number, f);
    } else {
      LongMarker(hi, f);
    }
  }

  lemma HighBits(cls: byte, constructed: bool, hi: byte)
    requires cls <= 3 && hi == (cls << 6) | (if constructed then B6 else 0)
    ensures hi & 31 == 0 && (hi & (B8 | B7)) >> 6 == cls && ((hi & B6) > 0) == constructed
  {
  }

  lemma LowNumber(hi: byte, number: uint64, f: byte)
    requires hi & 31 == 0 && number <= 30 && f == hi | number as byte
    ensures (f & (B8 | B7)) == (hi & (B8 | B7)) && (f & B6) == (hi & B6)
    ensures f & 31 < 31 && (f & 31) as uint64 == number
  {
  }

  lemma LongMarker(hi: byte, f: byte)
    requires hi & 31 == 0 && f == hi | 31
    ensures (f & (B8 | B7)) == (hi & (B8 | B7)) && (f & B6) == (hi & B6) && f & 31 == 31
  {
  }

  /** The sublist of subsequent octets ends exactly at the last group. */
  lemma SpanOfSubsequent(gs: seq<byte>, rest: seq<byte>)
    requires 1 <= |gs| && forall k :: 0 <= k < |gs| ==> gs[k] < 0x80
    ensures SubsequentSpan(Subsequent(gs) + rest) == Some(|gs|)
  {
    var s := Subsequent(gs) + rest;
    forall k | 0 <= k < |gs| - 1
      ensures s[k] & B8 != 0
    {
      MarkedOctet(gs[k]);
    }
    UnmarkedOctet(gs[|gs| - 1]);
    SpanFound(s, |gs| - 1);
  }

  /** Dropping b8 again recovers the groups. */
  lemma SubsequentLowBits(gs: seq<byte>)
    requires forall k :: 0 <= k < |gs| ==> gs[k] < 0x80
    ensures LowBits(Subsequent(gs)) == gs
  {
    forall k | 0 <= k < |gs|
      ensures LowBits(Subsequent(gs))[k] == gs[k]
    {
      MarkedOctet(gs[k]);
      UnmarkedOctet(gs[k]);
    }
  }

  lemma MarkedOctet(g: byte)
    requires g < 0x80
    ensures (g | B8) & B8 != 0 && (g | B8) & 0x7F == g
  {
  }

  lemma UnmarkedOctet(g: byte)
    requires g < 0x80
    ensures g & B8 == 0 && g & 0x7F == g
  {
  }

  /** The groups of n, assembled as TagFromReader assembles them, give n.
      The proof goes through each possible number of groups in turn. */
  lemma GroupsAssemble(n: uint64)
    ensures Assembled(Groups(n), |Groups(n)|) == n
  {
    var k := |Groups(n)|;
    GroupsCountBound(n);
    if k == 1 { Assemble1(n); }
    else if k == 2 { Assemble2(n); }
    else if k == 3 { Assemble3(n); }
    else if k == 4 { Assemble4(n); }
    else if k == 5 { Assemble5(n); }
    else if k == 6 { Assemble6(n); }
    else if k == 7 { Assemble7(n); }
    else if k == 8 { Assemble8(n); }
    else if k == 9 { Assemble9(n); }
    else { Assemble10(n); }
  }

  /** A number with at most k groups is no larger than Ones(k). */
  lemma GroupsBelow(n: uint64, upperLimit: uint64, k: nat)
    requires 1 <= k <= 10 && upperLimit == Ones(k)
    ensures |Groups(n)| <= k ==> n <= upperLimit
  {
    if upperLimit < n {
      GroupsExceed(n, upperLimit, k);
    }
  }

  lemma Assemble1(n: uint64)
    requires |Groups(n)| == 1
    ensures Assembled(Groups(n), |Groups(n)|) == n
  {
    GroupsInPlace(n);
    AssembledLow1(n, Groups(n));
    GroupsBelow(n, Ones(1), 1);
    assert Ones(1) == 0x7F;
  }

  lemma Assemble2(n: uint64)
    requires |Groups(n)| == 2
    ensures Assembled(Groups(n), |Groups(n)|) == n
  {
    GroupsInPlace(n);
    AssembledLow2(n, Groups(n));
    GroupsBelow(n, Ones(2), 2);
    assert Ones(2) == 0x3FFF;
  }

  lemma Assemble3(n: uint64)
    requires |Groups(n)| == 3
    ensures Assembled(Groups(n), |Groups(n)|) == n
  {
    GroupsInPlace(n);
    AssembledLow3(n, Groups(n));
    GroupsBelow(n, Ones(3), 3);
    assert Ones(3) == 0x1F_FFFF;
  }

  lemma Assemble4(n: uint64)
    requires |Groups(n)| == 4
    ensures Assembled(Groups(n), |Groups(n)|) == n
  {
    GroupsInPlace(n);
    AssembledLow4(n, Groups(n));
    GroupsBelow(n, Ones(4), 4);
    assert Ones(4) == 0xFFF_FFFF;
  }

  lemma Assemble5(n: uint64)
    requires |Groups(n)| == 5
    ensures Assembled(Groups(n), |Groups(n)|) == n
  {
    GroupsInPlace(n);
    AssembledLow5(n, Groups(n));
    GroupsBelow(n, Ones(5), 5);
    assert Ones(5) == 0x7_FFFF_FFFF;
  }

  lemma Assemble6(n: uint64)
    requires |Groups(n)| == 6
    ensures Assembled(Groups(n), |Groups(n)|) == n
  {
    GroupsInPlace(n);
    AssembledLow6(n, Groups(n));
    GroupsBelow(n, Ones(6), 6);
    assert Ones(6) == 0x3FF_FFFF_FFFF;
  }

  lemma Assemble7(n: uint64)
    requires |Groups(n)| == 7
    ensures Assembled(Groups(n), |Groups(n)|) == n
  {
    GroupsInPlace(n);
    AssembledLow7(n, Groups(n));
    GroupsBelow(n, Ones(7), 7);
    assert Ones(7) == 0x1_FFFF_FFFF_FFFF;
  }

  lemma Assemble8(n: uint64)
    requires |Groups(n)| == 8
    ensures Assembled(Groups(n), |Groups(n)|) == n
  {
    GroupsInPlace(n);
    AssembledLow8(n, Groups(n));
    GroupsBelow(n, Ones(8), 8);
    assert Ones(8) == 0xFF_FFFF_FFFF_FFFF;
  }

  lemma Assemble9(n: uint64)
    requires |Groups(n)| == 9
    ensures Assembled(Groups(n), |Groups(n)|) == n
  {
    GroupsInPlace(n);
    AssembledLow9(n, Groups(n));
    GroupsBelow(n, Ones(9), 9);
    assert Ones(9) == 0x7FFF_FFFF_FFFF_FFFF;
  }

  lemma Assemble10(n: uint64)
    requires |Groups(n)| == 10
    ensures Assembled(Groups(n), |Groups(n)|) == n
  {
    GroupsInPlace(n);
    AssembledLow10(n, Groups(n));
    GroupsBelow(n, Ones(10), 10);
    assert Ones(10) == MaxUint64;
  }

  /** Every group of n stands in its place. */
  lemma GroupsInPlace(n: uint64)
    ensures |Groups(n)| <= 10
    ensures forall g :: 0 <= g < |Groups(n)| ==> Groups(n)[|Groups(n)| - 1 - g] == GroupLE(n, g)
  {
    GroupsCountBound(n);
    forall g | 0 <= g < |Groups(n)|
      ensures Groups(n)[|Groups(n)| - 1 - g] == GroupLE(n, g)
    {
      GroupAt(n, g);
    }
  }

  // The first i rounds of the assembling loop over groups gs that are the
  // groups of n rebuild the low 7i bits of n, one round at a time.

  lemma AssembledLow1(n: uint64, gs: seq<byte>)
    requires 1 <= |gs| && forall g :: 0 <= g < 1 ==> gs[|gs| - 1 - g] == GroupLE(n, g)
    ensures Assembled(gs, 1) == n & 0x7F
  {
    assert gs[|gs| - 1] == GroupLE(n, 0);
  }

  lemma AssembledLow2(n: uint64, gs: seq<byte>)
    requires 2 <= |gs| && forall g :: 0 <= g < 2 ==> gs[|gs| - 1 - g] == GroupLE(n, g)
    ensures Assembled(gs, 2) == n & 0x3FFF
  {
    AssembledLow1(n, gs);
    assert gs[|gs| - 2] == GroupLE(n, 1);
    Shl7By1(GroupLE(n, 1) as uint64);
    LowGroup1(n, GroupLE(n, 1));
  }

  lemma LowGroup1(n: uint64, g: byte)
    requires g == ((n >> 7) & 0x7F) as byte
    ensures (n & 0x7F) | ((g as uint64) << 7) == n & 0x3FFF
  {
  }

  lemma AssembledLow3(n: uint64, gs: seq<byte>)
    requires 3 <= |gs| && forall g :: 0 <= g < 3 ==> gs[|gs| - 1 - g] == GroupLE(n, g)
    ensures Assembled(gs, 3) == n & 0x1F_FFFF
  {
    AssembledLow2(n, gs);
    assert gs[|gs| - 3] == GroupLE(n, 2);
    Shl7By2(GroupLE(n, 2) as uint64);
    LowGroup2(n, GroupLE(n, 2));
  }

  lemma LowGroup2(n: uint64, g: byte)
    requires g == ((n >> 14) & 0x7F) as byte
    ensures (n & 0x3FFF) | ((g as uint64) << 14) == n & 0x1F_FFFF
  {
  }

  lemma AssembledLow4(n: uint64, gs: seq<byte>)
    requires 4 <= |gs| && forall g :: 0 <= g < 4 ==> gs[|gs| - 1 - g] == GroupLE(n, g)
    ensures Assembled(gs, 4) == n & 0xFFF_FFFF
  {
    AssembledLow3(n, gs);
    assert gs[|gs| - 4] == GroupLE(n, 3);
    Shl7By3(GroupLE(n, 3) as uint64);
    LowGroup3(n, GroupLE(n, 3));
  }

  lemma LowGroup3(n: uint64, g: byte)
    requires g == ((n >> 21) & 0x7F) as byte
    ensures (n & 0x1F_FFFF) | ((g as uint64) << 21) == n & 0xFFF_FFFF
  {
  }

  lemma AssembledLow5(n: uint64, gs: seq<byte>)
    requires 5 <= |gs| && forall g :: 0 <= g < 5 ==> gs[|gs| - 1 - g] == GroupLE(n, g)
    ensures Assembled(gs, 5) == n & 0x7_FFFF_FFFF
  {
    AssembledLow4(n, gs);
    assert gs[|gs| - 5] == GroupLE(n, 4);
    Shl7By4(GroupLE(n, 4) as uint64);
    LowGroup4(n, GroupLE(n, 4));
  }

  lemma LowGroup4(n: uint64, g: byte)
    requires g == ((n >> 28) & 0x7F) as byte
    ensures (n & 0xFFF_FFFF) | ((g as uint64) << 28) == n & 0x7_FFFF_FFFF
  {
  }

  lemma AssembledLow6(n: uint64, gs: seq<byte>)
    requires 6 <= |gs| && forall g :: 0 <= g < 6 ==> gs[|gs| - 1 - g] == GroupLE(n, g)
    ensures Assembled(gs, 6) == n & 0x3FF_FFFF_FFFF
  {
    AssembledLow5(n, gs);
    assert gs[|gs| - 6] == GroupLE(n, 5);
    Shl7By5(GroupLE(n, 5) as uint64);
    LowGroup5(n, GroupLE(n, 5));
  }

  lemma LowGroup5(n: uint64, g: byte)
    requires g == ((n >> 35) & 0x7F) as byte
    ensures (n & 0x7_FFFF_FFFF) | ((g as uint64) << 35) == n & 0x3FF_FFFF_FFFF
  {
  }

  lemma AssembledLow7(n: uint64, gs: seq<byte>)
    requires 7 <= |gs| && forall g :: 0 <= g < 7 ==> gs[|gs| - 1 - g] == GroupLE(n, g)
    ensures Assembled(gs, 7) == n & 0x1_FFFF_FFFF_FFFF
  {
    AssembledLow6(n, gs);
    assert gs[|gs| - 7] == GroupLE(n, 6);
    Shl7By6(GroupLE(n, 6) as uint64);
    LowGroup6(n, GroupLE(n, 6));
  }

  lemma LowGroup6(n: uint64, g: byte)
    requires g == ((n >> 42) & 0x7F) as byte
    ensures (n & 0x3FF_FFFF_FFFF) | ((g as uint64) << 42) == n & 0x1_FFFF_FFFF_FFFF
  {
  }

  lemma AssembledLow8(n: uint64, gs: seq<byte>)
    requires 8 <= |gs| && forall g :: 0 <= g < 8 ==> gs[|gs| - 1 - g] == GroupLE(n, g)
    ensures Assembled(gs, 8) == n & 0xFF_FFFF_FFFF_FFFF
  {
    AssembledLow7(n, gs);
    assert gs[|gs| - 8] == GroupLE(n, 7);
    Shl7By7(GroupLE(n, 7) as uint64);
    LowGroup7(n, GroupLE(n, 7));
  }

  lemma LowGroup7(n: uint64, g: byte)
    requires g == ((n >> 49) & 0x7F) as byte
    ensures (n & 0x1_FFFF_FFFF_FFFF) | ((g as uint64) << 49) == n & 0xFF_FFFF_FFFF_FFFF
  {
  }

  lemma AssembledLow9(n: uint64, gs: seq<byte>)
    requires 9 <= |gs| && forall g :: 0 <= g < 9 ==> gs[|gs| - 1 - g] == GroupLE(n, g)
    ensures Assembled(gs, 9) == n & 0x7FFF_FFFF_FFFF_FFFF
  {
    AssembledLow8(n, gs);
    assert gs[|gs| - 9] == GroupLE(n, 8);
    Shl7By8(GroupLE(n, 8) as uint64);
    LowGroup8(n, GroupLE(n, 8));
  }

  lemma LowGroup8(n: uint64, g: byte)
    requires g == ((n >> 56) & 0x7F) as byte
    ensures (n & 0xFF_FFFF_FFFF_FFFF) | ((g as uint64) << 56) == n & 0x7FFF_FFFF_FFFF_FFFF
  {
  }

  lemma AssembledLow10(n: uint64, gs: seq<byte>)
    requires 10 <= |gs| && forall g :: 0 <= g < 10 ==> gs[|gs| - 1 - g] == GroupLE(n, g)
    ensures Assembled(gs, 10) == n
  {
    AssembledLow9(n, gs);
    assert gs[|gs| - 10] == GroupLE(n, 9);
    Shl7By9(GroupLE(n, 9) as uint64);
    LowGroup9(n, GroupLE(n, 9));
  }

  lemma LowGroup9(n: uint64, g: byte)
    requires g == ((n >> 63) & 0x7F) as byte
    ensures (n & 0x7FFF_FFFF_FFFF_FFFF) | ((g as uint64) << 63) == n
  {
  }

  // Shl7 at each group position, as a single shift.

  lemma Shl7By1(x: uint64)
    ensures Shl7(x, 1) == x << 7
  {
  }

  lemma Shl7By2(x: uint64)
    ensures Shl7(x, 2) == x << 14
  {
    Shl7By1(x);
  }

  lemma Shl7By3(x: uint64)
    ensures Shl7(x, 3) == x << 21
  {
    Shl7By2(x);
  }

  lemma Shl7By4(x: uint64)
    ensures Shl7(x, 4) == x << 28
  {
    Shl7By3(x);
  }

  lemma Shl7By5(x: uint64)
    ensures Shl7(x, 5) == x << 35
  {
    Shl7By4(x);
  }

  lemma Shl7By6(x: uint64)
    ensures Shl7(x, 6) == x << 42
  {
    Shl7By5(x);
  }

  lemma Shl7By7(x: uint64)
    ensures Shl7(x, 7) == x << 49
  {
    Shl7By6(x);
  }

  lemma Shl7By8(x: uint64)
    ensures Shl7(x, 8) == x << 56
  {
    Shl7By7(x);
  }

  lemma Shl7By9(x: uint64)
    ensures Shl7(x, 9) == x << 63
  {
    Shl7By8(x);
  }

  /** With ten groups the leading one holds only bit 63, so TagFromReader's
      64-bit check lets every number ToBytes writes through. */
  lemma TopGroupSmall(n: uint64)
    requires |Groups(n)| == 10
    ensures Groups(n)[0] < 2
  {
    GroupAt(n, 9);
    TopBits(n);
  }

  lemma TopBits(n: uint64)
    ensures GroupLE(n, 9) < 2
  {
  }

  // ---------------------------------------------------------------------------
  // Shape of the encoding

  /** The short form is one octet; the long form needs at most ten more. */
  lemma TagBytesLength(t: Tag)
    requires ValidClass(t.cls)
    ensures (|TagBytes(t)| == 1) <==> t.number <= 30
    ensures 1 <= |TagBytes(t)| <= 11
  {
    if t.number > 30 {
      GroupsCountBound(t.number);
    }
  }

  /** Decoding never consumes more than its input, and a tag it returns
      without error has a valid class. */
  lemma DecodeTagBounds(s: seq<byte>)
    ensures DecodeTag(s).readTotal <= |s|
    ensures DecodeTag(s).err == None ==> ValidClass(DecodeTag(s).tag.cls) && DecodeTag(s).readTotal >= 1
  {
    if s != [] {
      ClassBits(s[0]);
    }
  }

  lemma ClassBits(b: byte)
    ensures (b & (B8 | B7)) >> 6 <= 3
  {
  }

  // ---------------------------------------------------------------------------
  // The package's examples

  lemma ExampleLowNumber()
    ensures TagBytes(Tag(TagClassContextSpecific, true, 27)) == [0xBB]
    ensures DecodeTag([0xBB]) == TagRead(1, Tag(TagClassContextSpecific, true, 27), None)
  {
  }

  lemma ExampleEdges()
    ensures TagBytes(Tag(TagClassApplication, true, 30)) == [0x7E]
    ensures TagBytes(Tag(TagClassApplication, true, 31)) == [0x7F, 0x1F]
    ensures TagBytes(Tag(TagClassPrivate, false, 127)) == [0xDF, 0x7F]
    ensures TagBytes(Tag(TagClassUniversal, false, 128)) == [0x1F, 0x81, 0x00]
  {
    assert Groups(31) == [31];
    assert Groups(127) == [127];
    assert Groups(128) == Groups(1) + [0];
  }

  lemma ExampleLarge()
    ensures TagBytes(Tag(TagClassUniversal, false, 1234567890)) == [0x1F, 0x84, 0xCC, 0xD8, 0x85, 0x52]
  {
    assert Groups(4) == [4];
    assert Groups(588) == Groups(4) + [76];
    assert Groups(75352) == Groups(588) + [88];
    assert Groups(9645061) == Groups(75352) + [5];
    assert Groups(1234567890) == Groups(9645061) + [82];
  }

  /** A long-form first octet f followed only by octets with b8 set: the input
      ends inside the tag, every octet is counted, and the class and
      constructed flag are set with number 0. */
  lemma DecodeTagTruncated(f: byte, s: seq<byte>)
    requires f & 31 == 31
    requires forall k :: 0 <= k < |s| ==> s[k] & B8 != 0
    ensures DecodeTag([f] + s) == TagRead(1 + |s|, Tag((f & (B8 | B7)) >> 6, (f & B6) > 0, 0), Some(Truncated))
  {
    assert ([f] + s)[1..] == s;
    SpanNone(s);
  }

  /** A long-form first octet f and subsequent octets gs ending at the first
      with b8 clear, whatever follows: more than ten groups, or ten whose
      leading group is 2 or more, exceed 64 bits and give the "not
      implemented" error with the span counted and number 0. */
  lemma DecodeTagTooLarge(f: byte, gs: seq<byte>, rest: seq<byte>)
    requires f & 31 == 31
    requires |gs| >= 1 && gs[|gs| - 1] & B8 == 0
    requires forall k :: 0 <= k < |gs| - 1 ==> gs[k] & B8 != 0
    requires |gs| > 10 || (|gs| == 10 && gs[0] & 0x7F >= 2)
    ensures DecodeTag([f] + gs + rest)
         == TagRead(1 + |gs|, Tag((f & (B8 | B7)) >> 6, (f & B6) > 0, 0), Some(NotImplemented))
  {
    var s := [f] + gs + rest;
    assert s[1..] == gs + rest;
    assert s[1..1 + |gs|] == gs;
    SpanFound(gs + rest, |gs| - 1);
  }

  /** Ten subsequent octets with b8 set: the input ends inside the tag. */
  lemma ExampleNoFinalByte()
    ensures DecodeTag([0x3F, 0x81, 0xFF, 0xFF, 0xFF, 0xFF, 0xFF, 0xFF, 0xFF, 0xFF])
         == TagRead(10, Tag(TagClassUniversal, true, 0), Some(Truncated))
  {
    var s: seq<byte> := [0x3F, 0x81, 0xFF, 0xFF, 0xFF, 0xFF, 0xFF, 0xFF, 0xFF, 0xFF];
    SpanNone(s[1..]);
  }

  /** The decoder also takes the long form for a number that fits in the first
      octet, which the encoder never writes, so two inputs decode to one tag. */
  lemma ExampleLongFormOfSmallNumber()
    ensures DecodeTag([0x1F, 0x05]) == TagRead(2, Tag(TagClassUniversal, false, 5), None)
    ensures TagBytes(Tag(TagClassUniversal, false, 5)) == [0x05]
  {
    var s: seq<byte> := [0x1F, 0x05];
    assert SubsequentSpan(s[1..]) == Some(1);
    assert LowBits(s[1..2]) == [0x05];
  }
}
