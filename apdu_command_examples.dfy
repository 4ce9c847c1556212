/** The serializer's behaviour on the package's test vectors: class byte 12,
    INS 34, P1 56, P2 78. Three of the vectors expect two-octet extended
    fields without the 00 marker; the serializer writes the marker, and the
    lemmas state what it writes. */
module ApduCommandExamples {
  import opened Octets
  import opened ApduCommand

  function Vector(data: seq<byte>, expecting: bool, le: ResponseLength): Command {
    Command(Some(0x12), 0x34, 0x56, 0x78, data, expecting, le)
  }

  lemma ExampleCase1()
    ensures Encoding(Vector([], false, 0)) == [0x12, 0x34, 0x56, 0x78]
  {
  }

  lemma ExampleCase2()
    ensures Encoding(Vector([], false, 128)) == [0x12, 0x34, 0x56, 0x78, 0x80]
    ensures Encoding(Vector([], false, 256)) == [0x12, 0x34, 0x56, 0x78, 0x00]
  {
  }

  /** Extended Le without data: 00 and two octets (the vectors expect only
      the two octets). */
  lemma ExampleCase2Extended()
    ensures Encoding(Vector([], false, 300)) == [0x12, 0x34, 0x56, 0x78, 0x00, 0x01, 0x2C]
    ensures Encoding(Vector([], true, 0)) == [0x12, 0x34, 0x56, 0x78, 0x00, 0x00, 0x00]
  {
  }

  lemma ExampleCase3()
    ensures Encoding(Vector([0x10, 0x20, 0x30], false, 0)) == [0x12, 0x34, 0x56, 0x78, 0x03, 0x10, 0x20, 0x30]
    ensures LcField(Vector(Zeros(256), false, 0)) == [0x00] && LeField(Vector(Zeros(256), false, 0)) == []
  {
  }

  /** Extended Lc: 00 and two octets for 300 octets (the vector expects only
      the two octets), 00 00 for 65536. */
  lemma ExampleCase3Extended()
    ensures LcField(Vector(Zeros(300), false, 0)) == [0x00, 0x01, 0x2C]
    ensures LcField(Vector(Zeros(0x1_0000), false, 0)) == [0x00, 0x00]
    ensures LeField(Vector(Zeros(0x1_0000), false, 0)) == []
  {
  }

  lemma ExampleCase4()
    ensures Encoding(Vector([0x10, 0x20, 0x30], false, 128)) == [0x12, 0x34, 0x56, 0x78, 0x03, 0x10, 0x20, 0x30, 0x80]
    ensures Encoding(Vector([0x10, 0x20, 0x30], false, 256)) == [0x12, 0x34, 0x56, 0x78, 0x03, 0x10, 0x20, 0x30, 0x00]
    ensures LcField(Vector(Zeros(256), false, 0x57)) == [0x00] && LeField(Vector(Zeros(256), false, 0x57)) == [0x57]
    ensures LcField(Vector(Zeros(256), false, 256)) == [0x00] && LeField(Vector(Zeros(256), false, 256)) == [0x00]
  {
  }

  /** Extended case 4: Le follows the data in two octets. */
  lemma ExampleCase4Extended()
    ensures LcField(Vector(Zeros(0x1_0000), false, 128)) == [0x00, 0x00]
    ensures LeField(Vector(Zeros(0x1_0000), false, 128)) == [0x00, 0x80]
    ensures LeField(Vector(Zeros(0x1_0000), true, 0)) == [0x00, 0x00]
  {
  }

  /** For 12 octets of data and Le 10000 the Lc field is 00 00 0C (the vector
      expects 00 0C). */
  lemma ExampleCase4ExtendedMarker()
    ensures LcField(Vector(Zeros(12), false, 10000)) == [0x00, 0x00, 0x0C]
  {
  }

  lemma ExampleCase4ExtendedLe()
    ensures LeField(Vector(Zeros(12), false, 10000)) == [0x27, 0x10]
  {
    TwoOctets(10000);
  }

  lemma TwoOctets(n: nat)
    requires n < 0x1_0000
    ensures BigEndian(n, 2) == [(n / 256) as byte, (n % 256) as byte]
  {
  }
}
