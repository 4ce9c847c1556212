/** The privilege encoder and decoder against each other: each undoes the
    other up to the implications. */
module GpPrivilegesProps {
  import opened Octets
  import opened GpPrivileges

  /** Decoding the bytes of p gives p with the implied flags added: p itself
      exactly when p obeys the implications. */
  lemma PrivilegesRoundTrip(p: Privileges)
    ensures PrivilegesFromBytes(p.ToBytes()) == p.Close()
    ensures PrivilegesFromBytes(p.ToBytes()) == p <==> p.Closed()
  {
    var b := p.ToBytes();
    FirstRoundTrip(p.first, p.second.authorizedManagement, b[0]);
    SecondRoundTrip(p.second, b[1]);
    ThirdRoundTrip(p.third, b[2]);
  }

  lemma FirstRoundTrip(f: FirstPrivileges, am: bool, b: byte)
    requires b == f.ToByte(am)
    ensures FirstFromByte(b, am)
         == f.(securityDomain := f.securityDomain || f.dapVerification || f.delegatedManagement
                                 || f.mandatedDAPVerification || am,
               dapVerification := f.dapVerification || f.mandatedDAPVerification)
  {
  }

  lemma SecondRoundTrip(s: SecondPrivileges, b: byte)
    requires b == s.ToByte()
    ensures SecondFromByte(b) == s
  {
  }

  lemma ThirdRoundTrip(t: ThirdPrivileges, b: byte)
    requires b == t.ToByte()
    ensures ThirdFromByte(b) == t
  {
  }

  /** Encoding the decoded flags gives the bytes with the implied bits added:
      the bytes themselves exactly when they already carry them. */
  lemma BytesRoundTrip(b: seq<byte>)
    requires |b| == 3
    ensures PrivilegesFromBytes(b).ToBytes() == CloseBytes(b)
    ensures PrivilegesFromBytes(b).ToBytes() == b <==> ClosedBytes(b)
  {
    FirstBytes(b[0], Has(b[1], PrivAuthorizedManagement));
    SecondBytes(b[1]);
    ThirdBytes(b[2]);
  }

  lemma FirstBytes(b: byte, am: bool)
    ensures FirstFromByte(b, am).ToByte(am) == ClosedFirstByte(b, am)
  {
  }

  lemma SecondBytes(b: byte)
    ensures SecondFromByte(b).ToByte() == b
  {
  }

  lemma ThirdBytes(b: byte)
    ensures ThirdFromByte(b).ToByte() == b
  {
  }

  /** Decoding then encoding is idempotent. */
  lemma RoundTripIdempotent(b: seq<byte>)
    requires |b| == 3
    ensures PrivilegesFromBytes(PrivilegesFromBytes(b).ToBytes()).ToBytes() == PrivilegesFromBytes(b).ToBytes()
  {
    PrivilegesRoundTrip(PrivilegesFromBytes(b));
  }

  /** Closing adds only implied flags, once. */
  lemma CloseIdempotent(p: Privileges)
    ensures p.Close().Close() == p.Close()
    ensures p.Close() == p <==> p.Closed()
  {
  }

  lemma ExamplePrivileges()
    ensures PrivilegesFromBytes([0x01, 0x00, 0x00]).ToBytes() == [0xC1, 0x00, 0x00]
    ensures PrivilegesFromBytes([0x00, 0x40, 0x00]).ToBytes() == [0x80, 0x40, 0x00]
    ensures PrivilegesFromBytes([0x80, 0xFF, 0x0F]).ToBytes() == [0x80, 0xFF, 0x0F]
  {
    BytesRoundTrip([0x01, 0x00, 0x00]);
    BytesRoundTrip([0x00, 0x40, 0x00]);
    BytesRoundTrip([0x80, 0xFF, 0x0F]);
  }
}
